/** Flattening ordered policy settings into one document (api/odm/policy.py,
    merge_settings). */
module PolicyMerge {
  import opened Text
  import opened PolicyModel

  // The fields that identify one entry of a list category.
  const LIST_KEYS: map<string, seq<string>> := map[
    "files" := ["path"],
    "scripts" := ["trigger", "name"],
    "systemd_units" := ["unit"],
    "cron" := ["name"],
    "firewall" := ["name"],
    "drive_maps" := ["mount_point"],
    "sudo_rules" := ["name"],
    "hbac_rules" := ["principal", "service"],
    "trusted_certificates" := ["name"],
    "packages" := ["name"],
    "custom_packages" := ["name"],
    "printers" := ["name", "for_principal"],
    "remote_desktop_files" := ["name", "for_principal"],
    "default_applications" := ["mime_type"],
    "sysctl" := ["key"],
    "shortcuts" := ["name", "for_principal"],
    "fonts" := ["name"],
    "dash" := ["name", "for_principal"],
    "certificate_enrolment" := ["profile", "path"],
    "admx" := ["policy_id"],
    "wifi_networks" := ["ssid"],
    "logon_hours" := ["principal", "start", "end"],
    "web_apps" := ["name"]]

  // Categories that are merged key by key, one level deep.
  const DICT_CATEGORIES: set<string> := {
    "browser", "firefox_policy", "chromium_policy", "wallpaper", "agent", "updates", "login_screen",
    "roaming_profile", "always_on_vpn", "local_password_policy", "power", "screen_lock", "removable_storage",
    "device_control", "computer_names", "password_manager", "desktop_theme", "second_factor", "first_run",
    "software_control", "regional", "firmware_updates"}

  function JoinFields(keys: seq<string>, item: Item): string {
    if |keys| == 0 then ""
    else
      var first := if keys[0] in item.fields then item.fields[keys[0]] else "";
      if |keys| == 1 then first else first + "|" + JoinFields(keys[1..], item)
  }

  function Identity(category: string, item: Item): string {
    JoinFields(if category in LIST_KEYS then LIST_KEYS[category] else [], item)
  }

  // Who the document is for. Without a target no entry's own targeting is
  // looked at.
  datatype Audience = Audience(matching: Matching, target: Option<Target>)

  predicate Wanted(a: Audience, item: Item) {
    a.target.None? || Refusal(a.matching, item.targeting, a.target.value).None?
  }

  // An insertion-ordered dictionary: a key keeps the place it first took.
  datatype Bucket = Bucket(order: seq<string>, at: map<string, Item>) {
    function Put(id: string, item: Item): Bucket {
      Bucket(if id in at then order else order + [id], at[id := item])
    }

    function Values(): seq<Item> {
      seq(|order|, i requires 0 <= i < |order| => if order[i] in at then at[order[i]] else BLANK)
    }
  }

  const BLANK := Item(map[], Targeting([], "", [], []))
  const EMPTY := Bucket([], map[])

  datatype Merged = Merged(
    lists: map<string, Bucket>, dicts: map<string, map<string, Sub>>, plain: map<string, Value>)

  // ------------------------------------------------------ specification ----

  function PutItems(a: Audience, category: string, b: Bucket, items: seq<Item>): Bucket {
    if |items| == 0 then b
    else
      var before := PutItems(a, category, b, items[..|items| - 1]);
      var item := items[|items| - 1];
      if Wanted(a, item) then before.Put(Identity(category, item), item) else before
  }

  function MergeSub(was: Option<Sub>, sub: Sub): Sub {
    if was.Some? && was.value.Fields? && sub.Fields? then Fields(was.value.fields + sub.fields) else sub
  }

  function MergeKeys(d: map<string, Sub>, v: map<string, Sub>): map<string, Sub> {
    map k | k in d.Keys + v.Keys :: if k in v then MergeSub(Lookup(d, k), v[k]) else d[k]
  }

  // How a value is merged goes by its category and by what it is: a list, a
  // dictionary, or anything else, which replaces what was there.
  predicate IsList(category: string, value: Value) {
    category in LIST_KEYS && value.Entries?
  }

  predicate IsDict(category: string, value: Value) {
    category in DICT_CATEGORIES && value.Dictionary? && !IsList(category, value)
  }

  function ListIn(gpo: Gpo, category: string): Option<seq<Item>> {
    if category in gpo.settings && IsList(category, gpo.settings[category])
    then Some(gpo.settings[category].items) else None
  }

  function DictIn(gpo: Gpo, category: string): Option<map<string, Sub>> {
    if category in gpo.settings && IsDict(category, gpo.settings[category])
    then Some(gpo.settings[category].keys) else None
  }

  function PlainIn(gpo: Gpo, category: string): Option<Value> {
    if category !in gpo.settings then None
    else
      var value := gpo.settings[category];
      if IsList(category, value) || IsDict(category, value) then None else Some(value)
  }

  function ListAfter(a: Audience, gpos: seq<Gpo>, category: string): Option<Bucket> {
    if |gpos| == 0 then None
    else
      var before := ListAfter(a, gpos[..|gpos| - 1], category);
      match ListIn(gpos[|gpos| - 1], category)
      case Some(items) => Some(PutItems(a, category, if before.Some? then before.value else EMPTY, items))
      case None => before
  }

  function DictAfter(gpos: seq<Gpo>, category: string): Option<map<string, Sub>> {
    if |gpos| == 0 then None
    else
      var before := DictAfter(gpos[..|gpos| - 1], category);
      match DictIn(gpos[|gpos| - 1], category)
      case Some(keys) => Some(MergeKeys(if before.Some? then before.value else map[], keys))
      case None => before
  }

  function PlainAfter(gpos: seq<Gpo>, category: string): Option<Value> {
    if |gpos| == 0 then None
    else
      match PlainIn(gpos[|gpos| - 1], category)
      case Some(value) => Some(value)
      case None => PlainAfter(gpos[..|gpos| - 1], category)
  }

  predicate Agrees(m: Merged, a: Audience, gpos: seq<Gpo>, category: string) {
    && Lookup(m.lists, category) == ListAfter(a, gpos, category)
    && Lookup(m.dicts, category) == DictAfter(gpos, category)
    && Lookup(m.plain, category) == PlainAfter(gpos, category)
  }

  // ----------------------------------------------------------- the code ----

  method MergeList(a: Audience, category: string, b: Bucket, items: seq<Item>) returns (bucket: Bucket)
    ensures bucket == PutItems(a, category, b, items)
  {
    bucket := b;
    assert items[..0] == [];
    for i := 0 to |items|
      invariant bucket == PutItems(a, category, b, items[..i])
    {
      var item := items[i];
      assert items[..i + 1][..i] == items[..i];
      if a.target.Some? && Refusal(a.matching, item.targeting, a.target.value).Some? {
        continue;
      }
      bucket := bucket.Put(Identity(category, item), item);
    }
    assert items[..|items|] == items;
  }

  method MergeDict(d: map<string, Sub>, v: map<string, Sub>) returns (bucket: map<string, Sub>)
    ensures bucket == MergeKeys(d, v)
  {
    bucket := d;
    var todo := v.Keys;
    while todo != {}
      invariant todo <= v.Keys
      invariant forall k :: k in bucket <==> k in d || (k in v && k !in todo)
      invariant forall k :: k in bucket ==>
        bucket[k] == if k in v && k !in todo then MergeSub(Lookup(d, k), v[k]) else d[k]
    {
      var key :| key in todo;
      var sub := v[key];
      if sub.Fields? && key in bucket && bucket[key].Fields? {
        bucket := bucket[key := Fields(bucket[key].fields + sub.fields)];
      } else {
        bucket := bucket[key := sub];
      }
      todo := todo - {key};
    }
  }

  function Spoken(a: Audience, m: Merged, category: string, value: Value): Merged {
    if IsList(category, value) then
      var bucket := if category in m.lists then m.lists[category] else EMPTY;
      m.(lists := m.lists[category := PutItems(a, category, bucket, value.items)])
    else if IsDict(category, value) then
      var bucket := if category in m.dicts then m.dicts[category] else map[];
      m.(dicts := m.dicts[category := MergeKeys(bucket, value.keys)])
    else m.(plain := m.plain[category := value])
  }

  method MergeOne(a: Audience, m: Merged, category: string, value: Value) returns (merged: Merged)
    ensures merged == Spoken(a, m, category, value)
  {
    if category in LIST_KEYS && value.Entries? {
      var bucket := MergeList(a, category, if category in m.lists then m.lists[category] else EMPTY, value.items);
      merged := m.(lists := m.lists[category := bucket]);
    } else if category in DICT_CATEGORIES && value.Dictionary? {
      var bucket := MergeDict(if category in m.dicts then m.dicts[category] else map[], value.keys);
      merged := m.(dicts := m.dicts[category := bucket]);
    } else {
      merged := m.(plain := m.plain[category := value]);
    }
  }

  lemma SilentCategory(m: Merged, a: Audience, gpos: seq<Gpo>, gpo: Gpo, category: string)
    requires Agrees(m, a, gpos, category) && category !in gpo.settings
    ensures Agrees(m, a, gpos + [gpo], category)
  {
    assert (gpos + [gpo])[..|gpos|] == gpos;
  }

  lemma SpokenCategory(m: Merged, a: Audience, gpos: seq<Gpo>, gpo: Gpo, category: string)
    requires Agrees(m, a, gpos, category) && category in gpo.settings
    ensures Agrees(Spoken(a, m, category, gpo.settings[category]), a, gpos + [gpo], category)
  {
    assert (gpos + [gpo])[..|gpos|] == gpos;
  }

  lemma OtherCategory(m: Merged, a: Audience, category: string, value: Value, gpos: seq<Gpo>, c: string)
    requires Agrees(m, a, gpos, c) && c != category
    ensures Agrees(Spoken(a, m, category, value), a, gpos, c)
  {
  }

  method MergeGpo(a: Audience, m: Merged, ghost gpos: seq<Gpo>, gpo: Gpo) returns (merged: Merged)
    requires forall c :: Agrees(m, a, gpos, c)
    ensures forall c :: Agrees(merged, a, gpos + [gpo], c)
  {
    merged := m;
    var todo := gpo.settings.Keys;
    while todo != {}
      invariant todo <= gpo.settings.Keys
      invariant forall c :: Agrees(merged, a, if c in gpo.settings && c !in todo then gpos + [gpo] else gpos, c)
    {
      var category :| category in todo;
      ghost var before := merged;
      ghost var left := todo - {category};
      merged := MergeOne(a, merged, category, gpo.settings[category]);
      forall c ensures Agrees(merged, a, if c in gpo.settings && c !in left then gpos + [gpo] else gpos, c) {
        if c == category {
          SpokenCategory(before, a, gpos, gpo, c);
        } else {
          OtherCategory(before, a, category, gpo.settings[category],
            if c in gpo.settings && c !in left then gpos + [gpo] else gpos, c);
        }
      }
      todo := todo - {category};
    }
    forall c ensures Agrees(merged, a, gpos + [gpo], c) {
      if c !in gpo.settings {
        SilentCategory(merged, a, gpos, gpo, c);
      }
    }
  }

  // Later objects win, entry by entry and key by key.
  method MergeSettings(a: Audience, gpos: seq<Gpo>) returns (merged: Merged)
    ensures forall c :: Agrees(merged, a, gpos, c)
  {
    merged := Merged(map[], map[], map[]);
    assert gpos[..0] == [];
    for i := 0 to |gpos|
      invariant forall c :: Agrees(merged, a, gpos[..i], c)
    {
      merged := MergeGpo(a, merged, gpos[..i], gpos[i]);
      SliceSnoc(gpos, 0, i + 1);
    }
    assert gpos[..|gpos|] == gpos;
  }

  // ------------------------------------------------------------ meaning ----

  // What the last object with anything to say on a question says.
  function LastSaid<T>(said: Gpo -> Option<T>, gpos: seq<Gpo>): Option<T> {
    if |gpos| == 0 then None
    else if said(gpos[|gpos| - 1]).Some? then said(gpos[|gpos| - 1])
    else LastSaid(said, gpos[..|gpos| - 1])
  }

  // The last entry of a list with a given identity that is meant for the target.
  function LastItem(a: Audience, category: string, id: string, items: seq<Item>): Option<Item> {
    if |items| == 0 then None
    else if Wanted(a, items[|items| - 1]) && Identity(category, items[|items| - 1]) == id
    then Some(items[|items| - 1])
    else LastItem(a, category, id, items[..|items| - 1])
  }

  function ItemSaid(a: Audience, category: string, id: string): Gpo -> Option<Item> {
    (g: Gpo) => match ListIn(g, category) {
      case Some(items) => LastItem(a, category, id, items)
      case None => None
    }
  }

  function SubSaid(category: string, key: string): Gpo -> Option<Sub> {
    (g: Gpo) => match DictIn(g, category) {
      case Some(keys) => Lookup(keys, key)
      case None => None
    }
  }

  // On one field below a key an object speaks when it sets that field, and
  // also when it sets the key to something that has no fields at all.
  function FieldSaid(category: string, key: string, field: string): Gpo -> Option<Option<string>> {
    (g: Gpo) => match SubSaid(category, key)(g) {
      case Some(Leaf(_)) => Some(None)
      case Some(Fields(fields)) => if field in fields then Some(Some(fields[field])) else None
      case None => None
    }
  }

  function PlainSaid(category: string): Gpo -> Option<Value> {
    (g: Gpo) => PlainIn(g, category)
  }

  function ItemAt(b: Option<Bucket>, id: string): Option<Item> {
    if b.Some? then Lookup(b.value.at, id) else None
  }

  function SubAt(d: Option<map<string, Sub>>, key: string): Option<Sub> {
    if d.Some? then Lookup(d.value, key) else None
  }

  function FieldOf(sub: Option<Sub>, field: string): Option<string> {
    if sub.Some? && sub.value.Fields? then Lookup(sub.value.fields, field) else None
  }

  lemma {:induction false} PutItemsAt(a: Audience, category: string, b: Bucket, items: seq<Item>, id: string)
    ensures Lookup(PutItems(a, category, b, items).at, id)
      == if LastItem(a, category, id, items).Some? then LastItem(a, category, id, items) else Lookup(b.at, id)
  {
    if |items| > 0 {
      PutItemsAt(a, category, b, items[..|items| - 1], id);
    }
  }

  /** The entry left under an identity is the one the last object with an
      entry of that identity put there. */
  lemma {:induction false} ListIsLastSaid(a: Audience, gpos: seq<Gpo>, category: string, id: string)
    ensures ItemAt(ListAfter(a, gpos, category), id) == LastSaid(ItemSaid(a, category, id), gpos)
  {
    if |gpos| > 0 {
      var before := ListAfter(a, gpos[..|gpos| - 1], category);
      ListIsLastSaid(a, gpos[..|gpos| - 1], category, id);
      match ListIn(gpos[|gpos| - 1], category)
      case Some(items) => PutItemsAt(a, category, if before.Some? then before.value else EMPTY, items, id);
      case None =>
    }
  }

  ghost predicate SameKind(now: Option<Sub>, said: Option<Sub>) {
    && (now.Some? <==> said.Some?)
    && (now.Some? ==> (now.value.Leaf? <==> said.value.Leaf?) && (now.value.Leaf? ==> now == said))
  }

  // What one more object makes of a key.
  function SubNext(now: Option<Sub>, said: Option<Sub>): Option<Sub> {
    if said.Some? then Some(MergeSub(now, said.value)) else now
  }

  lemma KeyMerged(d: map<string, Sub>, v: map<string, Sub>, key: string)
    ensures Lookup(MergeKeys(d, v), key) == SubNext(Lookup(d, key), Lookup(v, key))
  {
  }

  lemma SubAtNext(gpos: seq<Gpo>, category: string, key: string)
    requires |gpos| > 0
    ensures SubAt(DictAfter(gpos, category), key)
      == SubNext(SubAt(DictAfter(gpos[..|gpos| - 1], category), key), SubSaid(category, key)(gpos[|gpos| - 1]))
  {
    var before := DictAfter(gpos[..|gpos| - 1], category);
    match DictIn(gpos[|gpos| - 1], category)
    case Some(keys) => KeyMerged(if before.Some? then before.value else map[], keys, key);
    case None =>
  }

  lemma {:induction false} KindIsLastSaid(gpos: seq<Gpo>, category: string, key: string)
    ensures SameKind(SubAt(DictAfter(gpos, category), key), LastSaid(SubSaid(category, key), gpos))
  {
    if |gpos| > 0 {
      KindIsLastSaid(gpos[..|gpos| - 1], category, key);
      SubAtNext(gpos, category, key);
    }
  }

  lemma FieldOfNext(now: Option<Sub>, said: Option<Sub>, field: string)
    ensures FieldOf(SubNext(now, said), field)
      == match said
         case Some(Leaf(_)) => None
         case Some(Fields(fields)) => if field in fields then Some(fields[field]) else FieldOf(now, field)
         case None => FieldOf(now, field)
  {
  }

  lemma {:induction false} FieldIsLastSaid(gpos: seq<Gpo>, category: string, key: string, field: string)
    ensures FieldOf(SubAt(DictAfter(gpos, category), key), field)
      == var said := LastSaid(FieldSaid(category, key, field), gpos); if said.Some? then said.value else None
  {
    if |gpos| > 0 {
      var before := SubAt(DictAfter(gpos[..|gpos| - 1], category), key);
      FieldIsLastSaid(gpos[..|gpos| - 1], category, key, field);
      SubAtNext(gpos, category, key);
      FieldOfNext(before, SubSaid(category, key)(gpos[|gpos| - 1]), field);
    }
  }

  /** A key holds fields or something else as the last object to set it says,
      and each field below it is as the last object to speak on it says. */
  lemma DictIsLastSaid(gpos: seq<Gpo>, category: string, key: string, field: string)
    ensures SameKind(SubAt(DictAfter(gpos, category), key), LastSaid(SubSaid(category, key), gpos))
    ensures FieldOf(SubAt(DictAfter(gpos, category), key), field)
      == var said := LastSaid(FieldSaid(category, key, field), gpos); if said.Some? then said.value else None
  {
    KindIsLastSaid(gpos, category, key);
    FieldIsLastSaid(gpos, category, key, field);
  }

  lemma {:induction false} PlainIsLastSaid(gpos: seq<Gpo>, category: string)
    ensures PlainAfter(gpos, category) == LastSaid(PlainSaid(category), gpos)
  {
    if |gpos| > 0 {
      PlainIsLastSaid(gpos[..|gpos| - 1], category);
    }
  }

  // A bucket lists each identity once, under the identity its entry has.
  ghost predicate Tidy(category: string, b: Bucket) {
    && (forall k :: k in b.order <==> k in b.at)
    && (forall i, j :: 0 <= i < j < |b.order| ==> b.order[i] != b.order[j])
    && (forall k :: k in b.at ==> Identity(category, b.at[k]) == k)
  }

  // The list a bucket becomes has one entry for each identity, and that entry
  // carries it.
  lemma ValuesByIdentity(category: string, b: Bucket, id: string)
    requires Tidy(category, b)
    ensures forall i :: 0 <= i < |b.Values()| && Identity(category, b.Values()[i]) == id ==>
      Some(b.Values()[i]) == Lookup(b.at, id)
    ensures forall i, j :: 0 <= i < j < |b.Values()| ==>
      Identity(category, b.Values()[i]) != Identity(category, b.Values()[j])
    ensures id in b.at ==> b.at[id] in b.Values()
  {
    var values := b.Values();
    forall i | 0 <= i < |values| ensures Identity(category, values[i]) == b.order[i] {
      assert b.order[i] in b.order;
    }
    if id in b.at {
      var i :| 0 <= i < |b.order| && b.order[i] == id;
      assert values[i] == b.at[id];
    }
  }

  method FlattenLists(merged: Merged) returns (lists: map<string, seq<Item>>)
    ensures lists.Keys == merged.lists.Keys
    ensures forall c :: c in lists ==> lists[c] == merged.lists[c].Values()
  {
    lists := map[];
    var todo := merged.lists.Keys;
    while todo != {}
      invariant todo <= merged.lists.Keys && lists.Keys == merged.lists.Keys - todo
      invariant forall c :: c in lists ==> lists[c] == merged.lists[c].Values()
    {
      var category :| category in todo;
      lists := lists[category := merged.lists[category].Values()];
      todo := todo - {category};
    }
  }

  lemma {:induction false} PutItemsTidy(a: Audience, category: string, b: Bucket, items: seq<Item>)
    requires Tidy(category, b)
    ensures Tidy(category, PutItems(a, category, b, items))
  {
    if |items| > 0 {
      PutItemsTidy(a, category, b, items[..|items| - 1]);
    }
  }

  lemma {:induction false} ListIsTidy(a: Audience, gpos: seq<Gpo>, category: string)
    ensures ListAfter(a, gpos, category).Some? ==> Tidy(category, ListAfter(a, gpos, category).value)
  {
    if |gpos| > 0 {
      var before := ListAfter(a, gpos[..|gpos| - 1], category);
      ListIsTidy(a, gpos[..|gpos| - 1], category);
      match ListIn(gpos[|gpos| - 1], category)
      case Some(items) => PutItemsTidy(a, category, if before.Some? then before.value else EMPTY, items);
      case None =>
    }
  }

  // ------------------------------------------------------ in plain terms ----

  function FieldText(item: Item, key: string): string {
    if key in item.fields then item.fields[key] else ""
  }

  function TwoFields(item: Item, one: string, two: string): string {
    FieldText(item, one) + "|" + FieldText(item, two)
  }

  lemma OneKey(item: Item, key: string)
    ensures JoinFields([key], item) == FieldText(item, key)
  {
  }

  lemma TwoKeys(item: Item, one: string, two: string)
    ensures JoinFields([one, two], item) == TwoFields(item, one, two)
  {
    assert [one, two][1..] == [two];
  }

  lemma ThreeKeys(item: Item, one: string, two: string, three: string)
    ensures JoinFields([one, two, three], item) == FieldText(item, one) + "|" + TwoFields(item, two, three)
  {
    assert [one, two, three][1..] == [two, three];
    TwoKeys(item, two, three);
  }

  /** What identifies an entry of a list category: the fields that name it,
      joined by a bar, each the empty text where the entry has none. */
  lemma IdentityMeans(category: string, item: Item)
    requires category in LIST_KEYS
    ensures var keys := LIST_KEYS[category];
      && (|keys| == 1 ==> Identity(category, item) == FieldText(item, keys[0]))
      && (|keys| == 2 ==> Identity(category, item) == FieldText(item, keys[0]) + "|" + FieldText(item, keys[1]))
      && (|keys| == 3 ==>
            Identity(category, item)
              == FieldText(item, keys[0]) + "|" + (FieldText(item, keys[1]) + "|" + FieldText(item, keys[2])))
  {
    var keys := LIST_KEYS[category];
    if |keys| == 1 {
      assert keys == [keys[0]];
      OneKey(item, keys[0]);
    } else if |keys| == 2 {
      assert keys == [keys[0], keys[1]];
      TwoKeys(item, keys[0], keys[1]);
    } else if |keys| == 3 {
      assert keys == [keys[0], keys[1], keys[2]];
      ThreeKeys(item, keys[0], keys[1], keys[2]);
    }
  }

  lemma LogonHoursAreByPrincipalAndTimes(item: Item)
    ensures "logon_hours" in LIST_KEYS
    ensures Identity("logon_hours", item)
      == FieldText(item, "principal") + "|" + (FieldText(item, "start") + "|" + FieldText(item, "end"))
  {
    IdentityMeans("logon_hours", item);
  }

  lemma PrintersAreByNameAndPrincipal(item: Item)
    ensures "printers" in LIST_KEYS
    ensures Identity("printers", item) == FieldText(item, "name") + "|" + FieldText(item, "for_principal")
  {
    IdentityMeans("printers", item);
  }

  /** An entry is merged when there is no target to ask about, or the target
      meets the entry's own targeting. */
  lemma WantedMeans(a: Audience, item: Item)
    ensures Wanted(a, item) <==> (a.target.Some? ==> Meets(a.matching, item.targeting, a.target.value))
  {
    if a.target.Some? {
      InScopeMeans(a.matching, Gpo("", "", true, map[], [], item.targeting), a.target.value);
    }
  }

  // The last wanted entry of an identity in a list.
  ghost predicate IsLastOf(a: Audience, category: string, id: string, items: seq<Item>, k: int) {
    && 0 <= k < |items| && Wanted(a, items[k]) && Identity(category, items[k]) == id
    && forall j :: k < j < |items| && Wanted(a, items[j]) ==> Identity(category, items[j]) != id
  }

  lemma LastOfMore(a: Audience, category: string, id: string, items: seq<Item>, k: int)
    requires |items| > 0 && IsLastOf(a, category, id, items[..|items| - 1], k)
    requires !(Wanted(a, items[|items| - 1]) && Identity(category, items[|items| - 1]) == id)
    ensures IsLastOf(a, category, id, items, k) && items[..|items| - 1][k] == items[k]
  {
    forall j | k < j < |items| && Wanted(a, items[j]) ensures Identity(category, items[j]) != id {
      if j < |items| - 1 {
        assert items[..|items| - 1][j] == items[j];
      }
    }
  }

  lemma {:induction false} LastItemMeans(a: Audience, category: string, id: string, items: seq<Item>)
    ensures match LastItem(a, category, id, items)
            case Some(item) => exists k :: IsLastOf(a, category, id, items, k) && items[k] == item
            case None => forall k :: 0 <= k < |items| && Wanted(a, items[k]) ==> Identity(category, items[k]) != id
  {
    if |items| > 0 {
      var n := |items| - 1;
      LastItemMeans(a, category, id, items[..n]);
      if Wanted(a, items[n]) && Identity(category, items[n]) == id {
        assert IsLastOf(a, category, id, items, n);
      } else if LastItem(a, category, id, items[..n]).Some? {
        var k :| IsLastOf(a, category, id, items[..n], k) && items[..n][k] == LastItem(a, category, id, items).value;
        LastOfMore(a, category, id, items, k);
      }
    }
  }

  lemma {:induction false} PlacesStay(a: Audience, category: string, b: Bucket, items: seq<Item>)
    ensures b.order <= PutItems(a, category, b, items).order
  {
    if |items| > 0 {
      PlacesStay(a, category, b, items[..|items| - 1]);
    }
  }

  /** An entry keeps the place its identity first took in the list, whatever
      later objects make of it. */
  lemma PlacesStayTaken(a: Audience, gpos: seq<Gpo>, gpo: Gpo, category: string)
    ensures var before, after := ListAfter(a, gpos, category), ListAfter(a, gpos + [gpo], category);
      before.Some? ==> after.Some? && before.value.order <= after.value.order
  {
    assert (gpos + [gpo])[..|gpos|] == gpos;
    match ListIn(gpo, category)
    case Some(items) =>
      var before := ListAfter(a, gpos, category);
      PlacesStay(a, category, if before.Some? then before.value else EMPTY, items);
    case None =>
  }

  /** What an object says on an entry of a list: the last entry of that
      identity that its list for the category holds for the target. */
  lemma ItemSaidMeans(a: Audience, category: string, id: string, gpo: Gpo)
    ensures match ItemSaid(a, category, id)(gpo)
            case Some(item) =>
              && category in LIST_KEYS && category in gpo.settings && gpo.settings[category].Entries?
              && exists k :: IsLastOf(a, category, id, gpo.settings[category].items, k)
                             && gpo.settings[category].items[k] == item
            case None =>
              category in LIST_KEYS && category in gpo.settings && gpo.settings[category].Entries? ==>
                forall k :: 0 <= k < |gpo.settings[category].items| && Wanted(a, gpo.settings[category].items[k]) ==>
                  Identity(category, gpo.settings[category].items[k]) != id
  {
    if category in gpo.settings && gpo.settings[category].Entries? {
      LastItemMeans(a, category, id, gpo.settings[category].items);
    }
  }

  /** What an object says on a key, and on a field below it, of a dictionary
      category; and on a category as a whole that is merged in neither way. */
  lemma KeySaidMeans(category: string, key: string, field: string, gpo: Gpo)
    ensures var speaks := category in DICT_CATEGORIES && category in gpo.settings && gpo.settings[category].Dictionary?
        && key in gpo.settings[category].keys;
      && SubSaid(category, key)(gpo) == (if speaks then Some(gpo.settings[category].keys[key]) else None)
      && FieldSaid(category, key, field)(gpo) ==
           if !speaks then None
           else match gpo.settings[category].keys[key]
                case Leaf(_) => Some(None)
                case Fields(fields) => if field in fields then Some(Some(fields[field])) else None
    ensures PlainSaid(category)(gpo) ==
      if category in gpo.settings
         && !(category in LIST_KEYS && gpo.settings[category].Entries?)
         && !(category in DICT_CATEGORIES && gpo.settings[category].Dictionary?)
      then Some(gpo.settings[category]) else None
  {
  }
}
