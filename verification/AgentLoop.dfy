/** The agent's apply loop: the saved serial, retries and back-off
    (agent/main.go). */
module AgentLoop {
  import opened Text

  // --------------------------------------------------------------- the file ----

  // What one write of the file leaves: all of it, its first so many
  // characters, or the file as it was. No failure is reported.
  datatype Save = Written | Torn(kept: nat) | Lost

  function SavedText(serial: string, version: string): string {
    serial + "\n" + version + "\n"
  }

  function Saved(file: Option<string>, serial: string, version: string, save: Save): Option<string> {
    var text := SavedText(serial, version);
    match save
    case Written => Some(text)
    case Torn(kept) => Some(if kept < |text| then text[..kept] else text)
    case Lost => file
  }

  function AfterBreak(text: string): string {
    if |UpTo(text, '\n')| < |text| then text[|UpTo(text, '\n')| + 1..] else ""
  }

  // The serial in the file, if this version of the agent wrote it, else "".
  function LastSerial(file: Option<string>, version: string): string {
    match file
    case None => ""
    case Some(text) => if Strip(AfterBreak(text)) != version then "" else UpTo(text, '\n')
  }

  // What a build is called, and what the control plane calls a policy.
  predicate IsVersion(v: string) {
    |v| > 0 && !IsSpace(v[0]) && !IsSpace(v[|v| - 1])
  }

  predicate IsSerial(s: string) {
    '\n' !in s
  }

  lemma StripBreak(v: string)
    requires IsVersion(v)
    ensures Strip(v + "\n") == v && Strip(v) == v
  {
    assert (v + "\n")[..|v|] == v;
  }

  // A file the same version wrote in full is read back.
  lemma ReadsBack(serial: string, version: string)
    requires IsSerial(serial) && IsVersion(version)
    ensures LastSerial(Some(SavedText(serial, version)), version) == serial
  {
    var text := SavedText(serial, version);
    UpToFirst(serial, "\n" + (version + "\n"), '\n');
    assert text == serial + ("\n" + (version + "\n"));
    assert text[|serial| + 1..] == version + "\n";
    StripBreak(version);
  }

  lemma {:induction false} StripStart(p: string)
    requires |p| > 0 ==> !IsSpace(p[0])
    ensures Strip(p) <= p
    decreases |p|
  {
    if |p| > 0 && IsSpace(p[|p| - 1]) {
      StripStart(p[..|p| - 1]);
    }
  }

  lemma StripOfPart(p: string, version: string)
    requires p <= version + "\n" && IsVersion(version)
    ensures Strip(p) <= version
    ensures p == version + "\n" ==> Strip(p) == version
  {
    if |p| == |version| + 1 {
      StripBreak(version);
    } else {
      assert p <= version;
      StripStart(p);
    }
  }

  // What a file written in whole or in part can be read as: nothing, or the
  // serial that was written, and that only by a version whose name starts
  // the writer's.
  lemma PartIsRead(serial: string, writer: string, text: string, version: string)
    requires IsSerial(serial) && IsVersion(writer) && IsVersion(version)
    requires text <= SavedText(serial, writer)
    ensures LastSerial(Some(text), version) != "" ==> LastSerial(Some(text), version) == serial && version <= writer
    ensures LastSerial(Some(text), version) != "" && text == SavedText(serial, writer) ==> version == writer
  {
    var whole := SavedText(serial, writer);
    if |text| <= |serial| {
      assert text <= serial;
      UpToAll(text, '\n');
    } else {
      var rest := text[|serial| + 1..];
      assert text == serial + ("\n" + rest);
      UpToFirst(serial, "\n" + rest, '\n');
      assert whole[|serial| + 1..] == writer + "\n";
      assert rest <= writer + "\n";
      StripOfPart(rest, writer);
    }
  }

  // --------------------------------------------------------------- one pass ----

  // What the control plane answered, and how many settings then failed.
  datatype Document = Document(serial: string, updateWaiting: bool)

  datatype Pass = Pass(version: string, forUser: bool, forced: bool, fetched: Option<Document>,
                       failed: nat, reported: bool, save: Save)

  datatype Outcome = NotFetched | Unchanged | ReportFailed | SettingsFailed | AppliedInFull

  predicate IsError(o: Outcome) {
    o == NotFetched || o == ReportFailed || o == SettingsFailed
  }

  // Whether a pass has nothing to do.
  predicate NothingNew(file: Option<string>, p: Pass) {
    && p.fetched.Some? && !p.forced && !p.forUser && !p.fetched.value.updateWaiting
    && p.fetched.value.serial == LastSerial(file, p.version)
  }

  function OutcomeOf(file: Option<string>, p: Pass): Outcome {
    if p.fetched.None? then NotFetched
    else if NothingNew(file, p) then Unchanged
    else if !p.reported then ReportFailed
    else if p.failed > 0 then SettingsFailed
    else AppliedInFull
  }

  // A pass over the whole machine's policy that applied all of it.
  predicate Succeeds(file: Option<string>, p: Pass) {
    OutcomeOf(file, p) == AppliedInFull && !p.forUser
  }

  function After(file: Option<string>, p: Pass): Option<string> {
    if Succeeds(file, p) then Saved(file, p.fetched.value.serial, p.version, p.save) else file
  }

  class Machine {
    var file: Option<string>

    constructor ()
      ensures file == None
    {
      file := None;
    }

    method SaveSerial(serial: string, version: string, save: Save)
      modifies this
      ensures file == Saved(old(file), serial, version, save)
    {
      var text := serial + "\n" + version + "\n";
      match save {
        case Written => file := Some(text);
        case Torn(kept) => file := Some(if kept < |text| then text[..kept] else text);
        case Lost =>
      }
    }

    // One pass. The appliers run in every case but the first two outcomes,
    // and the serial is saved after the report.
    method ApplyOnce(p: Pass) returns (o: Outcome, ran: bool)
      modifies this
      ensures o == OutcomeOf(old(file), p) && file == After(old(file), p)
      ensures o == NotFetched <==> p.fetched.None?
      ensures o == Unchanged <==>
        && p.fetched.Some? && !p.forced && !p.forUser && !p.fetched.value.updateWaiting
        && p.fetched.value.serial == LastSerial(old(file), p.version)
      ensures ran <==> o != NotFetched && o != Unchanged
      ensures ran && !p.reported ==> o == ReportFailed
      ensures ran && p.reported ==> o == if p.failed > 0 then SettingsFailed else AppliedInFull
      ensures file != old(file) ==> ran && p.reported && p.failed == 0 && !p.forUser
      ensures ran && p.reported && p.failed == 0 && !p.forUser && p.save.Written? ==>
        file == Some(p.fetched.value.serial + "\n" + p.version + "\n")
    {
      if p.fetched.None? {
        return NotFetched, false;
      }
      var document := p.fetched.value;
      if !p.forced && !p.forUser && document.serial == LastSerial(file, p.version) && !document.updateWaiting {
        return Unchanged, false;
      }
      if !p.reported {
        return ReportFailed, true;
      }
      if !p.forUser && p.failed == 0 {
        SaveSerial(document.serial, p.version, p.save);
      }
      if p.failed > 0 {
        return SettingsFailed, true;
      }
      return AppliedInFull, true;
    }
  }

  // ------------------------------------------------------------- whole runs ----

  // The file after a run of passes over what was there before.
  function FileFrom(start: Option<string>, passes: seq<Pass>): Option<string> {
    if |passes| == 0 then start else After(FileFrom(start, passes[..|passes| - 1]), passes[|passes| - 1])
  }

  // A pass over the whole machine that did not find the policy unchanged, and
  // whose settings all applied and were reported.
  predicate SucceededAt(passes: seq<Pass>, i: nat) {
    && i < |passes|
    && passes[i].fetched.Some? && !passes[i].forUser && passes[i].reported && passes[i].failed == 0
    && (passes[i].forced || passes[i].fetched.value.updateWaiting
        || passes[i].fetched.value.serial != LastSerial(FileFrom(None, passes[..i]), passes[i].version))
  }

  // The last successful pass whose save reached the file.
  predicate LastSaved(passes: seq<Pass>, i: nat) {
    && SucceededAt(passes, i) && passes[i].save != Lost
    && forall j :: i < j < |passes| && SucceededAt(passes, j) ==> passes[j].save == Lost
  }

  predicate Orderly(passes: seq<Pass>) {
    forall i :: 0 <= i < |passes| ==>
      IsVersion(passes[i].version) && (passes[i].fetched.Some? ==> IsSerial(passes[i].fetched.value.serial))
  }

  // What the file holds after a run, and whose it is.
  ghost predicate FileIs(passes: seq<Pass>, i: nat, text: string) {
    && LastSaved(passes, i)
    && text <= SavedText(passes[i].fetched.value.serial, passes[i].version)
    && (passes[i].save == Written ==> text == SavedText(passes[i].fetched.value.serial, passes[i].version))
  }

  lemma EarlierSame(passes: seq<Pass>, i: nat)
    requires 0 < |passes|
    ensures i < |passes| - 1 ==> (SucceededAt(passes, i) <==> SucceededAt(passes[..|passes| - 1], i))
  {
    if i < |passes| - 1 {
      assert passes[..|passes| - 1][..i] == passes[..i];
    }
  }

  lemma LastSavedStays(passes: seq<Pass>, i: nat)
    requires |passes| > 0 && LastSaved(passes[..|passes| - 1], i)
    requires SucceededAt(passes, |passes| - 1) ==> passes[|passes| - 1].save == Lost
    ensures LastSaved(passes, i)
  {
    var n := |passes| - 1;
    EarlierSame(passes, i);
    forall j | i < j < |passes| && SucceededAt(passes, j) ensures passes[j].save == Lost {
      if j < n {
        EarlierSame(passes, j);
        assert passes[..n][j] == passes[j];
      }
    }
  }

  lemma FileStays(passes: seq<Pass>, i: nat, text: string)
    requires |passes| > 0 && FileIs(passes[..|passes| - 1], i, text)
    requires SucceededAt(passes, |passes| - 1) ==> passes[|passes| - 1].save == Lost
    ensures FileIs(passes, i, text)
  {
    LastSavedStays(passes, i);
    assert passes[..|passes| - 1][i] == passes[i];
  }

  lemma FileWritten(passes: seq<Pass>, text: string)
    requires |passes| > 0 && SucceededAt(passes, |passes| - 1) && passes[|passes| - 1].save != Lost
    requires FileFrom(None, passes) == Some(text)
    ensures FileIs(passes, |passes| - 1, text)
  {
  }

  lemma {:induction false} FileComesFrom(passes: seq<Pass>)
    ensures FileFrom(None, passes).Some? ==> exists i: nat :: FileIs(passes, i, FileFrom(None, passes).value)
  {
    if |passes| > 0 && FileFrom(None, passes).Some? {
      var n := |passes| - 1;
      if SucceededAt(passes, n) && passes[n].save != Lost {
        FileWritten(passes, FileFrom(None, passes).value);
      } else {
        FileComesFrom(passes[..n]);
        var i: nat :| FileIs(passes[..n], i, FileFrom(None, passes[..n]).value);
        FileStays(passes, i, FileFrom(None, passes).value);
      }
    }
  }

  /** A pass that finds its policy unchanged: the save that last reached the
      file was of that serial, by a pass of a version that this one's name
      starts, and by this very version if the save was whole. */
  lemma UnchangedMeansSaved(passes: seq<Pass>, p: Pass) returns (i: nat)
    requires Orderly(passes + [p]) && OutcomeOf(FileFrom(None, passes), p) == Unchanged && p.fetched.value.serial != ""
    ensures LastSaved(passes, i) && passes[i].fetched.value.serial == p.fetched.value.serial
    ensures p.version <= passes[i].version && (passes[i].save == Written ==> p.version == passes[i].version)
  {
    var file := FileFrom(None, passes);
    FileComesFrom(passes);
    i :| FileIs(passes, i, file.value);
    assert (passes + [p])[i] == passes[i] && (passes + [p])[|passes|] == p;
    PartIsRead(passes[i].fetched.value.serial, passes[i].version, file.value, p.version);
  }

  // The promise: the running version applied this serial in full, and no
  // pass since then succeeded with another.
  ghost predicate Promise(passes: seq<Pass>, p: Pass, i: nat) {
    && p.fetched.Some? && SucceededAt(passes, i)
    && passes[i].failed == 0 && passes[i].reported && passes[i].version == p.version
    && passes[i].fetched.value.serial == p.fetched.value.serial
    && forall j :: i < j < |passes| && SucceededAt(passes, j) ==>
         passes[j].fetched.value.serial == p.fetched.value.serial
  }

  predicate WholeSaves(passes: seq<Pass>) {
    forall i :: 0 <= i < |passes| && SucceededAt(passes, i) ==> passes[i].save == Written
  }

  /** While every save was whole, "policy unchanged" keeps its promise. */
  lemma UnchangedKeepsPromise(passes: seq<Pass>, p: Pass)
    requires Orderly(passes + [p]) && OutcomeOf(FileFrom(None, passes), p) == Unchanged && p.fetched.value.serial != ""
    requires WholeSaves(passes)
    ensures exists i: nat :: Promise(passes, p, i)
  {
    var i := UnchangedMeansSaved(passes, p);
    assert Promise(passes, p, i);
  }

  function Plain(serial: string, save: Save): Pass {
    Pass("1.0", false, false, Some(Document(serial, false)), 0, true, save)
  }

  /** A save that is lost, which nothing reports, breaks it: the machine is
      told its policy is unchanged though another was applied since. */
  lemma LostSaveBreaksPromise()
    ensures var passes, p := [Plain("a", Written), Plain("b", Lost)], Plain("a", Written);
      && Orderly(passes + [p]) && OutcomeOf(FileFrom(None, passes), p) == Unchanged
      && !exists i: nat :: Promise(passes, p, i)
  {
    var first, second := Plain("a", Written), Plain("b", Lost);
    var passes := [first, second];
    ReadsBack("a", "1.0");
    FirstIsSaved();
    assert passes[..1] == [first];
    assert FileFrom(None, passes[..1]) == Some(SavedText("a", "1.0"));
    assert SucceededAt(passes, 1) && FileFrom(None, passes) == Some(SavedText("a", "1.0"));
    forall i: nat ensures !Promise(passes, first, i) {
      assert passes[1].fetched.value.serial == "b";
    }
  }

  lemma FirstIsSaved()
    ensures FileFrom(None, [Plain("a", Written)]) == Some(SavedText("a", "1.0"))
  {
    assert [Plain("a", Written)][..0] == [];
    assert LastSerial(None, "1.0") == "" && FileFrom(None, []) == None;
  }

  /** So does a save cut short: a version whose name starts that of the version
      that wrote takes what it applied for its own. */
  lemma TornSaveBreaksPromise()
    ensures var passes, p := [Pass("10", false, false, Some(Document("a", false)), 0, true, Torn(3))], AsVersion("1");
      && Orderly(passes + [p]) && OutcomeOf(FileFrom(None, passes), p) == Unchanged
      && !exists i: nat :: Promise(passes, p, i)
  {
    var first := Pass("10", false, false, Some(Document("a", false)), 0, true, Torn(3));
    var passes := [first];
    assert passes[..0] == [];
    assert LastSerial(None, "10") == "" && FileFrom(None, []) == None;
    assert SavedText("a", "10")[..3] == "a\n1";
    assert FileFrom(None, passes) == Some("a\n1");
    UpToFirst("a", "\n1", '\n');
    assert "a" + "\n1" == "a\n1" && "a\n1"[2..] == "1";
    StripBreak("1");
  }

  function AsVersion(version: string): Pass {
    Pass(version, false, false, Some(Document("a", false)), 0, true, Written)
  }

  /** And so does an empty serial, which a file that says nothing matches. */
  lemma EmptySerialBreaksPromise()
    ensures var p := Plain("", Written);
      && Orderly([] + [p]) && OutcomeOf(FileFrom(None, []), p) == Unchanged && !exists i: nat :: Promise([], p, i)
  {
    assert [] + [Plain("", Written)] == [Plain("", Written)];
  }

  // Runs whose successful passes save whole, or else in the ways allowed, and
  // whose policies have a serial unless that is allowed not to be.
  predicate Kinds(passes: seq<Pass>, p: Pass, lost: bool, torn: bool, unnamed: bool) {
    && (forall i :: 0 <= i < |passes| && SucceededAt(passes, i) ==>
          passes[i].save.Written? || (lost && passes[i].save.Lost?) || (torn && passes[i].save.Torn?))
    && (unnamed || (p.fetched.Some? ==> p.fetched.value.serial != ""))
  }

  ghost predicate PromiseKept(passes: seq<Pass>, p: Pass) {
    Orderly(passes + [p]) && OutcomeOf(FileFrom(None, passes), p) == Unchanged ==>
      exists i: nat :: Promise(passes, p, i)
  }

  ghost predicate PromiseAlwaysKept(lost: bool, torn: bool, unnamed: bool) {
    forall passes: seq<Pass>, p: Pass :: Kinds(passes, p, lost, torn, unnamed) ==> PromiseKept(passes, p)
  }

  lemma WholeKeepsPromise(passes: seq<Pass>, p: Pass)
    requires Kinds(passes, p, false, false, false)
    ensures PromiseKept(passes, p)
  {
    if Orderly(passes + [p]) && OutcomeOf(FileFrom(None, passes), p) == Unchanged {
      UnchangedKeepsPromise(passes, p);
    }
  }

  /** "Policy unchanged" keeps its promise in every run exactly when no save is
      lost, none is torn, and every policy has a serial. */
  lemma PromiseExactly(lost: bool, torn: bool, unnamed: bool)
    ensures PromiseAlwaysKept(lost, torn, unnamed) <==> !lost && !torn && !unnamed
  {
    if lost {
      LostSaveBreaksPromise();
      assert Kinds([Plain("a", Written), Plain("b", Lost)], Plain("a", Written), lost, torn, unnamed);
    } else if torn {
      TornSaveBreaksPromise();
      var first := Pass("10", false, false, Some(Document("a", false)), 0, true, Torn(3));
      assert Kinds([first], AsVersion("1"), lost, torn, unnamed);
    } else if unnamed {
      EmptySerialBreaksPromise();
      assert Kinds([], Plain("", Written), lost, torn, unnamed);
    } else {
      forall passes: seq<Pass>, p: Pass | Kinds(passes, p, lost, torn, unnamed) ensures PromiseKept(passes, p) {
        WholeKeepsPromise(passes, p);
      }
    }
  }

  /** A policy this version has not applied in full is applied on every pass
      that gets it, whatever happened before. */
  lemma AppliedUntilDone(passes: seq<Pass>, p: Pass)
    requires Orderly(passes + [p]) && p.fetched.Some? && p.fetched.value.serial != ""
    requires forall i: nat :: SucceededAt(passes, i) ==>
      passes[i].fetched.value.serial != p.fetched.value.serial || !(p.version <= passes[i].version)
    ensures OutcomeOf(FileFrom(None, passes), p) != Unchanged
  {
    if OutcomeOf(FileFrom(None, passes), p) == Unchanged {
      var i := UnchangedMeansSaved(passes, p);
      assert false;
    }
  }

  /** Applied in full and saved, it is left alone from then on, until
      somebody asks, the agent is replaced or another is applied. */
  lemma DoneIsLeftAlone(file: Option<string>, done: Pass, p: Pass)
    requires Succeeds(file, done) && done.save == Written
    requires IsSerial(done.fetched.value.serial) && IsVersion(done.version)
    requires p.fetched.Some? && p.fetched.value.serial == done.fetched.value.serial
    ensures OutcomeOf(After(file, done), p) == Unchanged
        <==> && !p.forced && !p.forUser && !p.fetched.value.updateWaiting
             && (p.version == done.version || p.fetched.value.serial == "")
  {
    ReadsBack(done.fetched.value.serial, done.version);
    OtherVersion(done.fetched.value.serial, done.version, p.version);
  }

  lemma OtherVersion(serial: string, writer: string, version: string)
    requires IsSerial(serial) && IsVersion(writer)
    ensures version != writer ==> LastSerial(Some(SavedText(serial, writer)), version) == ""
  {
    var text := SavedText(serial, writer);
    UpToFirst(serial, "\n" + (writer + "\n"), '\n');
    assert text == serial + ("\n" + (writer + "\n"));
    assert text[|serial| + 1..] == writer + "\n";
    StripBreak(writer);
  }

  // ------------------------------------------------------- retries and waits ----

  const RETRY_FLOOR := 30
  const MOST_DOUBLINGS := 8

  function Doubled(times: nat): (r: nat)
    ensures r >= RETRY_FLOOR
  {
    if times == 0 then RETRY_FLOOR else 2 * Doubled(times - 1)
  }

  function Least(a: nat, b: nat): nat {
    if a < b then a else b
  }

  // How long to wait, in seconds, after so many failures in a row.
  function Delay(interval: nat, failures: nat): nat {
    if failures == 0 then interval else Least(Doubled(Least(failures - 1, MOST_DOUBLINGS)), interval)
  }

  method AfterFailures(interval: nat, failures: nat) returns (r: nat)
    ensures r == Delay(interval, failures)
  {
    if failures == 0 {
      return interval;
    }
    var backoff := RETRY_FLOOR;
    var times := Least(failures - 1, MOST_DOUBLINGS);
    for k := 0 to times
      invariant backoff == Doubled(k)
    {
      backoff := backoff * 2;
    }
    return Least(backoff, interval);
  }

  lemma {:induction false} DoubledGrows(a: nat, b: nat)
    requires a <= b
    ensures Doubled(a) <= Doubled(b)
  {
    if a < b {
      DoubledGrows(a, b - 1);
    }
  }

  /** The delay lies between half a minute and the interval, or is the
      interval when that is shorter; it never shrinks as failures add up, and
      stops growing at the interval or at 128 minutes. */
  lemma DelayIsBounded(interval: nat, failures: nat, more: nat)
    requires 0 < failures <= more
    ensures Least(RETRY_FLOOR, interval) <= Delay(interval, failures) <= interval
    ensures Delay(interval, failures) <= Delay(interval, more)
    ensures failures > MOST_DOUBLINGS ==> Delay(interval, failures) == Least(7680, interval)
  {
    DoubledGrows(Least(failures - 1, MOST_DOUBLINGS), Least(more - 1, MOST_DOUBLINGS));
    assert Doubled(8) == 7680 by {
      assert Doubled(2) == 120 && Doubled(4) == 480 && Doubled(6) == 1920;
    }
  }

  // One turn of the daemon: what the pass met, the interval then in force,
  // and whether somebody asked for a refresh while it waited.
  datatype Turn = Turn(pass: Pass, interval: nat, refresh: bool)

  // The pass as the daemon runs it: for the machine, and forced when the
  // wait before it ended in a refresh.
  function DaemonPass(turns: seq<Turn>, k: nat): Pass
    requires k < |turns|
  {
    turns[k].pass.(forUser := false, forced := Forced(turns, k))
  }

  function DaemonPasses(turns: seq<Turn>, n: nat): (r: seq<Pass>)
    requires n <= |turns|
    ensures |r| == n
    ensures forall k :: 0 <= k < n ==> r[k] == DaemonPass(turns, k)
  {
    seq(n, k requires 0 <= k < n => DaemonPass(turns, k))
  }

  function OutcomeAt(start: Option<string>, turns: seq<Turn>, k: nat): Outcome
    requires k < |turns|
  {
    OutcomeOf(FileFrom(start, DaemonPasses(turns, k)), DaemonPass(turns, k))
  }

  // How many passes in a row have failed after the first n.
  function FailuresInARow(start: Option<string>, turns: seq<Turn>, n: nat): (f: nat)
    requires n <= |turns|
    ensures f <= n
  {
    if n == 0 || !IsError(OutcomeAt(start, turns, n - 1)) then 0 else 1 + FailuresInARow(start, turns, n - 1)
  }

  lemma OneMorePass(start: Option<string>, turns: seq<Turn>, k: nat)
    requires k < |turns|
    ensures FileFrom(start, DaemonPasses(turns, k + 1))
      == After(FileFrom(start, DaemonPasses(turns, k)), DaemonPass(turns, k))
  {
    assert DaemonPasses(turns, k + 1)[..k] == DaemonPasses(turns, k);
  }

  predicate Forced(turns: seq<Turn>, k: nat)
    requires k <= |turns|
  {
    k > 0 && turns[k - 1].refresh
  }

  // What k turns come to.
  ghost predicate Ran(start: Option<string>, turns: seq<Turn>, k: nat, outcomes: seq<Outcome>, waits: seq<nat>) {
    && k <= |turns| && |outcomes| == k && |waits| == k
    && (forall j :: 0 <= j < k ==> outcomes[j] == OutcomeAt(start, turns, j))
    && (forall j :: 0 <= j < k ==> waits[j] == Delay(turns[j].interval, FailuresInARow(start, turns, j + 1)))
  }

  lemma RanOnce(start: Option<string>, turns: seq<Turn>, k: nat, outcomes: seq<Outcome>, waits: seq<nat>,
                o: Outcome, wait: nat)
    requires Ran(start, turns, k, outcomes, waits) && k < |turns| && o == OutcomeAt(start, turns, k)
    requires wait == Delay(turns[k].interval, FailuresInARow(start, turns, k + 1))
    ensures Ran(start, turns, k + 1, outcomes + [o], waits + [wait])
  {
    var all := waits + [wait];
    forall j | 0 <= j < k + 1 ensures all[j] == Delay(turns[j].interval, FailuresInARow(start, turns, j + 1)) {
      if j < k {
        assert all[j] == waits[j];
      }
    }
  }

  // The daemon between two turns: the file, and what it has counted.
  ghost predicate At(start: Option<string>, turns: seq<Turn>, k: nat, file: Option<string>, failures: nat) {
    k <= |turns| && file == FileFrom(start, DaemonPasses(turns, k)) && failures == FailuresInARow(start, turns, k)
  }

  method RunTurn(machine: Machine, ghost start: Option<string>, ghost turns: seq<Turn>, ghost k: nat, turn: Turn,
                 forced: bool, failures: nat)
    returns (o: Outcome, wait: nat, failures': nat)
    requires k < |turns| && turn == turns[k] && forced == Forced(turns, k)
    requires At(start, turns, k, machine.file, failures)
    modifies machine
    ensures At(start, turns, k + 1, machine.file, failures')
    ensures o == OutcomeAt(start, turns, k)
    ensures wait == Delay(turn.interval, FailuresInARow(start, turns, k + 1))
  {
    OneMorePass(start, turns, k);
    var ran;
    o, ran := machine.ApplyOnce(turn.pass.(forUser := false, forced := forced));
    failures' := if IsError(o) then failures + 1 else 0;
    wait := AfterFailures(turn.interval, failures');
  }

  // The daemon forces a pass only after a refresh was asked for, and waits
  // as long as the failures in a row say.
  method RunDaemon(machine: Machine, turns: seq<Turn>) returns (outcomes: seq<Outcome>, waits: seq<nat>)
    modifies machine
    ensures machine.file == FileFrom(old(machine.file), DaemonPasses(turns, |turns|))
    ensures Ran(old(machine.file), turns, |turns|, outcomes, waits)
  {
    ghost var start := machine.file;
    outcomes, waits := [], [];
    var forced, failures := false, 0;
    for k := 0 to |turns|
      invariant At(start, turns, k, machine.file, failures) && forced == Forced(turns, k)
      invariant Ran(start, turns, k, outcomes, waits)
    {
      var o, wait;
      o, wait, failures := RunTurn(machine, start, turns, k, turns[k], forced, failures);
      RanOnce(start, turns, k, outcomes, waits, o, wait);
      outcomes, waits := outcomes + [o], waits + [wait];
      forced := turns[k].refresh;
    }
  }

  // ------------------------------------------------------ in plain terms ----

  /** A pass is an error exactly when nothing was fetched, or when it ran and a
      setting failed or the report did; the file changes only after a pass over
      the whole machine that ran, applied everything and was reported. */
  lemma ErrorExactly(file: Option<string>, p: Pass)
    ensures IsError(OutcomeOf(file, p)) <==>
      || p.fetched.None?
      || ((p.failed > 0 || !p.reported)
          && (p.forced || p.forUser || p.fetched.value.updateWaiting
              || p.fetched.value.serial != LastSerial(file, p.version)))
    ensures After(file, p) != file ==>
      && p.fetched.Some? && p.failed == 0 && p.reported && !p.forUser
      && (p.forced || p.fetched.value.updateWaiting || p.fetched.value.serial != LastSerial(file, p.version))
  {
  }

  /** The delay after one failure is half a minute, and doubles with each
      failure more, eight times, unless the interval is shorter; after no
      failure it is the interval. */
  lemma DelayExactly(interval: nat, failures: nat)
    ensures Delay(interval, 0) == interval
    ensures Delay(interval, 1) == Least(30, interval)
    ensures 1 <= failures <= 8 && Delay(interval, failures) < interval ==>
      Delay(interval, failures + 1) == Least(2 * Delay(interval, failures), interval)
    ensures failures >= 9 ==> Delay(interval, failures) == Least(30 * 256, interval)
  {
    assert Doubled(8) == 7680 by {
      assert Doubled(2) == 120 && Doubled(4) == 480 && Doubled(6) == 1920;
    }
  }

  /** So many failures in a row are so many failing passes at the end, with a
      pass that did not fail, or none, before them. */
  lemma {:induction false} FailuresMean(start: Option<string>, turns: seq<Turn>, n: nat, k: nat)
    requires k < n <= |turns|
    ensures n - FailuresInARow(start, turns, n) <= k ==> IsError(OutcomeAt(start, turns, k))
    ensures n - FailuresInARow(start, turns, n) == k + 1 ==> !IsError(OutcomeAt(start, turns, k))
  {
    if k < n - 1 {
      FailuresMean(start, turns, n - 1, k);
    }
  }

  /** The daemon's passes are for the machine, and forced exactly after a wait
      that a refresh ended. */
  lemma DaemonPassMeans(turns: seq<Turn>, k: nat)
    requires k < |turns|
    ensures var p := DaemonPass(turns, k);
      && !p.forUser && (p.forced <==> k > 0 && turns[k - 1].refresh)
      && p == turns[k].pass.(forUser := false, forced := p.forced)
  {
  }
}
