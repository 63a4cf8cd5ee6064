# Open Directory Manager: a verified model of its hard parts

Open Directory Manager runs a Samba domain: a control plane in Python
(`api/odm`) and an agent in Go on every machine (`agent`). This project models
the parts where a loop, a race or a piece of text that is written in one place
and read in another must agree with something simpler, and proves that it does.

`dafny verify dfyconfig.toml` checks the whole project. One file holds one module.

| file | what it models |
|---|---|
| `DistinguishedNames.dfy` | splitting a distinguished name and climbing its containers |
| `PolicyModel.dfy`, `PolicyOrder.dfy`, `PolicyMerge.dfy`, `PolicyWinner.dfy` | Group Policy: who is in scope, the order of application, the overwriting merge, and the rule of precedence it comes to |
| `PhoneApproval.dfy` | a sign-in approved on a phone: rows, topics, concurrent polls, waiting machines |
| `Leadership.dfy`, `Migrations.dfy` | one leader among replicas, and schema migrations run by many at once |
| `OidcTokens.dfy`, `Base64Url.dfy` | authorization codes and refresh tokens; unpadded base64url and integers in it |
| `LdapFilter.dfy`, `DynamicGroups.dfy` | the text form of search filters, and the compiler from conditions to it |
| `Radius.dfy` | network access rules compiled to a policy that is evaluated in order |
| `Monitoring.dfy`, `Alerts.dfy` | judging samples from their summaries, and the table of alerts |
| `LdapPool.dfy` | the pool of directory connections |
| `Assist.dfy` | shared screens: links, offers and their registry |
| `Replicas.dfy` | which replica owns a session and how a request reaches it |
| `Naming.dfy`, `Fleet.dfy`, `HostNames.dfy` | numbering computer names; the machines that ask for names, take them, are moved and are deleted; their host names |
| `ReverseDns.dfy`, `Numerals.dfy` | reverse zones and decimal numerals |
| `AgentLoop.dfy` | the agent's saved serial, its retries and its waits |
| `StableSort.dfy`, `Text.dfy` | Python's stable sort, and small operations on text and sequences |

How things are modelled:

- A protocol with several parties (phone approval, leadership, migrations,
  codes and tokens, the machines and their names) is a state machine. Its steps
  are the pieces of code between two awaits, or whole calls where "Left out"
  says so. `Run` applies any sequence of steps, so a theorem about `Run` holds in
  every interleaving. A step that is not possible where it is taken changes
  nothing. Fields that the tables do not have (`asked`, `settles`, `issued`,
  `minted`, `resolved`, `used`, `told`) record history for the theorems.
- What a theorem rests on is pinned down in plain terms in each module: lemmas
  named `...Exactly` or `...Means` say what the operations do by the fields, the
  numbers and the steps themselves, without naming the functions in between.
- Lemmas headed "progress" say that the steps do come to an answer when nothing
  comes between them, so that no safety theorem holds because nothing moves.
- What loops in the code loops here, as a method proved against a function; what
  the code promises is then proved about that function.
- What the code keeps in an object (`Pool`, `Link`, `Offer`, `Registry`, the
  replica's own state, the assignments of names, the serial file) is a class
  whose methods state the whole new state, with an invariant they all keep;
  `Serve`, `Share`, `Live` and `RunDaemon` run any sequence of events against it.
- Calls into code outside the repository are parameters: whether a name matches
  a shell pattern or an address lies in a network (`Matching`), the S256 hash,
  how the directory folds case (`fold`), whether a connection opens, what a
  query returned, whether a save reached the disk, the clock.

Where the code does not meet what its documentation says, the code is modelled
as it is and the exact condition is proved:

- A tap on an old notification is documented to do nothing
  (`api/odm/push.py:17-24`). On a challenge that has expired without a word it
  can settle it exactly when some poll that fetched the challenge in time is
  still reading its answer (`LateTapExactly`), and can let somebody in exactly
  when also the machine that asked still waits (`LateEntryExactly`); where a word
  was said, no later tap changes anything (`LaterTapsChangeNothing`).
- The container chain is the list of ancestors exactly when the comma in front
  of the base is not escaped and no empty component stands before it
  (`ChainIsAncestors`).
- "Every sample in the window" is every sample in the lookback, which reaches
  further than the window when that is shorter than two minutes
  (`LookbackOutreachesWindow`).
- Deny overrides allow, and no match means no, exactly when the policy starts
  with an Auth-Type its guard accepts and that is not already Accept
  (`DenyOverridesAllow`). Whether an absent attribute differs from Reject is a
  parameter.
- A session reaches its owner across replicas exactly when the owner's number
  has at most nine digits; the column it is drawn from goes further (`OneHop`).
- "Policy unchanged" is to mean that the running version applied this very
  policy last. It does in every run exactly when no save of the serial is lost,
  none is cut short, and no policy has an empty serial (`PromiseExactly`); each
  of the three alone breaks it (`LostSaveBreaksPromise`, `TornSaveBreaksPromise`,
  `EmptySerialBreaksPromise`). The control plane's serials are hexadecimal
  digests, so an empty one comes only from a malformed document.
- A name is "assigned once per machine and remembered" (`api/odm/naming.py:3-9`)
  by the machine's distinguished name. A machine asking again is told the same
  name exactly while its assignment, and no other, is under the distinguished
  name it has then (`SameNameExactly`). It stays so through a run exactly when the
  machine is not deleted, keeps its distinguished name up to case or changes it
  by taking its name in full where no other assignment is in the way
  (`RunKeepsRow`). A move by an administrator loses the name to whoever joins
  under the old one (`MoveLosesTheName`).
- A new number is counted from the directory's names (cn), while a machine is
  left alone for its host name. So a machine can be told another's host name,
  exactly when one of four things may happen, such as a move that renames a
  machine in the directory only (`TemplatesSpareHosts`).
- `run_while_leader` is to be cancelled to stop (`api/odm/leader.py:42-43`).
  Cancelled while it awaits the tasks that a failure made it cancel, it takes the
  cancellation for theirs and goes on, and only then (`StopExactly`).
- A connection whose work was cancelled is put back in the pool as a healthy one:
  only errors are caught (`Leave`).
- With a lost connection, and only then, two replicas do run the scheduled work
  for a while (`OneLeaderExactly`), for a bounded time (`OldLeaderIsBounded`).
- The filter text of conditions that were not validated reads back differently
  for an empty prefix, and is no filter without conditions (`ReadsAsIntended`).

## Model

| member | source | states |
|---|---|---|
| DistinguishedNames.SplitDn | api/odm/policy.py:133-152 | the split is at the commas no backslash escapes, and a last empty component is dropped |
| DistinguishedNames.ContainerChain | api/odm/policy.py:117-130 | the loop builds the base and then ever longer tails of the split name; nothing for a name that is not under the base |
| DistinguishedNames.AncestorsAreTails | api/odm/policy.py:133-152 | putting the components back together from the right gives what follows each unescaped comma: splitting loses nothing |
| DistinguishedNames.ChainIsAncestors | api/odm/policy.py:117-130 | for any name ending in a comma and the base, the chain is its ancestors, head first, if and only if that comma separates and no empty component precedes it |
| DistinguishedNames.ChainMissesAncestors | api/odm/policy.py:117-152 | both ways of missing that condition do occur |
| DistinguishedNames.ChainHasNoRepeats | api/odm/policy.py:117-130 | no container comes twice in a chain, however names are cased |
| DistinguishedNames.EscapedExactly | api/odm/policy.py:133-152 | a character is escaped by an odd number of backslashes right before it |
| DistinguishedNames.AncestorsExactly | api/odm/policy.py:133-152 | the ancestors of a name are what follows each comma not escaped |
| DistinguishedNames.ChainOfOthers | api/odm/policy.py:117-130 | a name not under the base has no chain, the base has itself, and what stands in front of the base is taken for a comma |
| PolicyModel.InScopeMeans | api/odm/policy.py:155-195 | an object is in scope exactly when it is enabled, its filter names the target or a group of it in any case, and each kind of targeting it states is met |
| PolicyModel.ReasonMeans | api/odm/policy.py:155-195 | the reason an object is out of scope is the first that holds: disabled, filter, system, name, groups, addresses |
| PolicyOrder.GroupLinks | api/odm/policy.py:228-231 | each container's group holds its links in the order listed |
| PolicyOrder.Walk | api/odm/policy.py:233-250 | the walk meets links by depth and then by descending link order, ties as listed, and sorts each to enforced, normal or skipped |
| PolicyOrder.FindDeepestBlocked | api/odm/policy.py:252-255 | the deepest blocked container of the chain, or none |
| PolicyOrder.DropInherited | api/odm/policy.py:256-262 | blocking keeps the normal links at or below the deepest blocked container and skips the others |
| PolicyOrder.ResolveOrder | api/odm/policy.py:215-269 | the ordered and the skipped lists, each as the placements it came from |
| PolicyOrder.AppliesExactly | api/odm/policy.py:215-269 | for every domain a link has a say exactly when it is on a container of the chain and enabled, its object is known, enabled, allows the target by its filter and is met by its targeting, and the link is enforced or no blocked container of the chain lies below its own |
| PolicyOrder.LaterIsStronger | api/odm/policy.py:233-269 | of two links that have a say the later applied is the enforced one; if both are, the one nearer the head, if neither, the one nearer the object; then the lower link order; then the one listed later; and what is applied are the links' objects |
| PolicyOrder.SkippedExactly | api/odm/policy.py:236-262 | every other link to a known object on a container of the chain is skipped, and nothing else, for its being disabled, or else the first reason of its object's scope, or else the blocked container |
| PolicyOrder.DeepestBlockedMeans | api/odm/policy.py:252-255 | no blocked container lies deeper than the one found |
| PolicyOrder.OrderedByPrecedence | api/odm/policy.py:233-269 | each object in the ordered list is beaten, by the declarative rule of precedence, by every later one |
| PolicyOrder.PlacedOnce | api/odm/policy.py:215-269 | every link to a known object met in the chain is in exactly one of the lists, once; nothing else is in any |
| PolicyOrder.MetAtOneDepth | api/odm/policy.py:233-236 | in a chain without repeats a link is met at one depth only |
| PolicyMerge.MergeList | api/odm/policy.py:286-301 | entries not meant for the target are left out, and a later entry replaces an earlier one of its identity in its place |
| PolicyMerge.MergeDict | api/odm/policy.py:302-313 | keys are merged one level deep where both sides have fields, else replaced |
| PolicyMerge.MergeSettings | api/odm/policy.py:272-317 | for every category, what is left is the fold of what the objects say on it, in order: by entry for a list category, by key for a dictionary category, else the whole value |
| PolicyMerge.ListIsLastSaid | api/odm/policy.py:286-301 | the entry under an identity is the one the last object with an entry of that identity put there |
| PolicyMerge.DictIsLastSaid | api/odm/policy.py:302-313 | a key is fields or not as the last object to set it says, and each field is as the last object to speak on it says |
| PolicyMerge.PlainIsLastSaid | api/odm/policy.py:310-312 | a value that is merged neither by entry nor by key is as the last object to set one says |
| PolicyMerge.ListIsTidy | api/odm/policy.py:286-322 | each identity is in a merged list once, with an entry that has it |
| PolicyMerge.IdentityMeans | api/odm/policy.py:320-322 | an entry is identified by the fields of its category joined by a bar, each the empty text where it has none |
| PolicyMerge.WantedMeans | api/odm/policy.py:289-296 | an entry is merged exactly when there is no target or the target meets its targeting |
| PolicyMerge.ItemSaidMeans | api/odm/policy.py:286-301 | what one object says under an identity is the last entry of that identity its list holds for the target |
| PolicyMerge.KeySaidMeans | api/odm/policy.py:302-316 | what one object says on a key, on a field below it, and on a category merged in neither way |
| PolicyMerge.PlacesStayTaken | api/odm/policy.py:286-301 | a later object leaves each entry the place its identity first took |
| PolicyMerge.ValuesByIdentity | api/odm/policy.py:314-322 | the flattened list has exactly one entry for each identity left |
| PolicyMerge.FlattenLists | api/odm/policy.py:314-317 | every merged list becomes its entries in order |
| PolicyWinner.WinnerDecides | api/odm/policy.py:215-317 | the last word in the order of application is the winner's, and there is none exactly when nobody applying speaks |
| PolicyWinner.OneWinner | api/odm/policy.py:215-269 | no question has two winners |
| PolicyWinner.EffectiveSettings | api/odm/policy.py:325-346 | resolving and merging gives the fold over the ordered placements, tidy lists, and every skipped link with its reason |
| PolicyWinner.ListEntryIsWinners | api/odm/policy.py:215-317 | the overwrite loop leaves under each list identity what the declarative winner has for it, or nothing when nobody has |
| PolicyWinner.DictKeyIsWinners | api/odm/policy.py:302-313 | the same for the kind of value under a dictionary key, and for a value that is not fields |
| PolicyWinner.DictFieldIsWinners | api/odm/policy.py:302-313 | the same for each field one level below a key |
| PolicyWinner.PlainIsWinners | api/odm/policy.py:310-312 | the same for a plain category |
| PhoneApproval.ReadAnswer | api/odm/push.py:240-267 | the answer is the first approved or denied among a topic's messages, whatever else and whatever unreadable lines come before |
| PhoneApproval.FirstWordMeans | api/odm/push.py:240-267 | that is the first message that but for white space and case reads approved or denied |
| PhoneApproval.FirstWordStays | api/odm/push.py:240-267 | nothing said later changes a topic's answer |
| PhoneApproval.RunPushFactor | agent/main.go:189-218 | the client exits 0 exactly when the first thing that ends its wait is a poll that says approved, 1 exactly when that is the deadline or a poll that says denied or expired, and not while there are only reminders, failed polls and answers that decide nothing |
| PhoneApproval.AnswersAreTheFirstWord | api/odm/push.py:314-359 | in every interleaving a stored decision and every approved or denied a poll returns is the first word on the challenge's own topic, read by a settle begun before expiry, and told to the asking machine only |
| PhoneApproval.FetchExactly | api/odm/push.py:71-73 | in every run a challenge put at one moment with a timeout is answered expired by a fetch at another, undecided and with its row there, exactly when more than the timeout lies between; and its row holds the token, account and machine it was put with |
| PhoneApproval.SignInExactly | api/odm/push.py:314-359 | a sign-in that nothing disturbs ends in exit 0 exactly when the phone says approved within the timeout, and in exit 1 when it says denied or the time is over |
| PhoneApproval.RowsLeft | api/odm/push.py:370-408 | a row is left by the daily clean-up exactly when it expired no more than a day ago, and by a retired policy exactly when the account is not covered |
| PhoneApproval.WithdrawnExactly | api/odm/routes_agent.py:667-682 | a question that cannot be sent is withdrawn and the client exits 2 |
| PhoneApproval.DecisionsNeverChange | api/odm/push.py:314-359 | a stored decision never changes, and no later answer contradicts it |
| PhoneApproval.ExitZeroMeansApproved | agent/main.go:189-218 | exit 0 means that word was approved, read in time, for a challenge this machine created and whose topic no other has |
| PhoneApproval.OldTapsDoNothing | api/odm/push.py:17-24 | once a challenge is past its expiry, unsettled and not being read, no tap on it has any effect ever: nothing is stored and no machine exits 0 for it |
| PhoneApproval.LateTapCounts | api/odm/push.py:314-359 | in every state a tap on a challenge without a word yet settles it for any poll that is still reading, however late |
| PhoneApproval.LateTapExactly | api/odm/push.py:17-24 | in every run a tap on a challenge that expired without a word can still settle it if and only if a poll is reading it |
| PhoneApproval.LateEntryExactly | api/odm/push.py:17-24 | in every run somebody can still be let in on such a challenge, by exit 0, if and only if a poll is reading it and the machine that asked has not given up |
| PhoneApproval.LaterTapsChangeNothing | api/odm/push.py:240-267 | where a word was said, no later tap changes it, and whatever is settled is that word |
| PhoneApproval.LateTapCanCount | api/odm/push.py:314-359 | such a poll does occur: a run in which a tap after expiry approves and the client exits 0 |
| PhoneApproval.OthersAreNotAnswered | api/odm/routes_agent.py:698-716 | in every interleaving a poll by a machine that did not ask the question is told that there is none, whatever is decided |
| PhoneApproval.NoneExactly | api/odm/routes_agent.py:698-716 | a poll is told there is no such sign-in exactly when the row is gone or another machine asked |
| Leadership.OneLeader | api/odm/leader.py:36-78 | in every run without connection loss a replica with scheduled tasks holds the lock, so there is at most one |
| Leadership.ConnectedLeaderHoldsLock | api/odm/leader.py:36-78 | with losses, the same among the replicas whose connection is still there |
| Leadership.TasksEndBeforeUnlock | api/odm/leader.py:70-78 | a lock is given up only by a replica whose tasks have ended and been awaited |
| Leadership.OldLeaderIsBounded | api/odm/leader.py:59-72 | after a loss the tasks are cancelled within one check, one failing probe and one retry, and the arrival of an answer under way when the connection went |
| Leadership.TwoLeadersAfterLoss | api/odm/leader.py:65-72 | until then two replicas can run them |
| Leadership.OneLeaderExactly | api/odm/leader.py:36-78 | over all runs there is at most one replica with scheduled tasks if and only if no connection is lost under a living replica |
| Leadership.FailureIsSurvived | api/odm/leader.py:44-78 | whether getting a connection, asking for the lock or a probe fails, a replica is back at the top of its loop after one retry, with no tasks, no connection and no lock |
| Leadership.RefusedAsksAgain | api/odm/leader.py:51-55 | a replica that finds the lock taken gives its connection back and asks again after one retry and no sooner |
| Leadership.LeaderProbes | api/odm/leader.py:58-62 | a leader probes one check after it started or was answered and no sooner, and goes on when answered |
| Leadership.GoneFreesTheLock | api/odm/leader.py:13-16 | the lock is free once the connection that had it is gone |
| Leadership.StopExactly | api/odm/leader.py:36-78 | cancelled at any await in any run a replica never leads again, unless it is then awaiting the tasks a failure made it cancel, and only then: that stop is swallowed and it can lead again |
| Migrations.AppliedIsPrefix | api/odm/db.py:60-95 | however calls start, fail and crash, what is applied is a beginning of the sorted list and each body took effect once, in order |
| Migrations.ReturnedMeansAllApplied | api/odm/db.py:60-95 | a call that returns leaves all of the list applied, and none mistakes a file for a changed one |
| Migrations.AppliedStays | api/odm/db.py:83-91 | what is applied stays applied through anything that follows |
| Migrations.UndisturbedCallReturns | api/odm/db.py:60-95 | a call that nothing disturbs applies all that is missing and returns with the lock free |
| Migrations.ChangedIsNoticed | api/odm/db.py:78-82 | a file changed after it was applied makes the next call raise, give the lock back and apply nothing |
| Migrations.FailedBodyLeavesNothing | api/odm/db.py:83-93 | a body that fails leaves nothing and the lock free, a call waits while the lock is taken, and a crash frees it |
| OidcTokens.OnePairPerCode | api/odm/oidc.py:525-576 | however requests race, a code is exchanged for at most one pair of tokens, for a proof that met every check (sections 4.1.2 and 4.1.3 of RFC 6749, section 4.6 of RFC 7636) |
| OidcTokens.ExchangeExactly | api/odm/oidc.py:253-267 | a code issued to a client for a redirect address with a challenge, claims and a nonce yields a pair exactly when presented with that client and address at most 120 seconds later, and there is no challenge or a verifier that hashes to it; the tokens carry that client, claims and nonce, for an hour and for 30 days |
| OidcTokens.PairsAreAsked | api/odm/oidc.py:525-561 | in every run each pair for a code goes back to the step that issued it, with its redirect address, within 120 seconds, and a verifier for its challenge |
| OidcTokens.TokensAreAsked | api/odm/oidc.py:493-576 | in every run each token carries the client, claims and nonce of the step that issued its code |
| OidcTokens.RefreshExactly | api/odm/oidc.py:562-576 | a token gives a new pair that says the same exactly when it is a refresh token of that client that has not expired |
| OidcTokens.SweptExactly | api/odm/oidc.py:266-267 | only expired codes and tokens are swept |
| OidcTokens.OneLiveRefreshToken | api/odm/oidc.py:493-576 | at most one refresh token of a code is alive, and while it is nothing else can make another (section 6 of RFC 6749) |
| OidcTokens.DescendantsKeepTheCode | api/odm/oidc.py:493-576 | every token has the client, claims and nonce of the code it descends from, through any number of refreshes |
| OidcTokens.FailedCheckBurnsTheCode | api/odm/oidc.py:538-561 | a failed check burns the code: no token descends from it then or later |
| OidcTokens.ClientsDoNotInterfere | api/odm/oidc.py:525-576 | for every client and every run, whatever codes and tokens it presents, the other clients hold, are answered and can obtain what they would with all its steps left out |
| OidcTokens.BurnedForEver | api/odm/oidc.py:525-576 | a code with nothing left of it yields no pair ever again |
| OidcTokens.UsedTokenStaysGone | api/odm/oidc.py:562-576 | a refresh token that was used is never found again |
| Base64Url.RoundTrip | api/odm/oidc.py:57-62 | every byte string comes back from its unpadded text |
| Base64Url.LettersExactly | api/odm/oidc.py:57-58 | the letters stand for the bits of the bytes, six at a time, with zeros past the last (section 4 of RFC 4648) |
| Base64Url.AlphabetExactly | api/odm/oidc.py:57-58 | the letters are those of table 2 in section 5 of RFC 4648 |
| Base64Url.PaddingIsRestored | api/odm/oidc.py:57-62 | the length alone tells how much padding was stripped, and what is left is URL-safe letters (section 5 of RFC 4648) |
| Base64Url.NumberRoundTrip | api/odm/oidc.py:65-66 | a number fits its computed byte length, has no leading zero byte, and is what its text decodes to (section 2 of RFC 7518) |
| LdapFilter.ScanEscaped | api/odm/dynamicgroups.py:88 | an escaped value is read as one stretch of text: none of its characters ends or splits it |
| LdapFilter.EscapedExactly | api/odm/dynamicgroups.py:88 | the five characters that mean something in a filter are escaped, each by its two digits, and no other |
| LdapFilter.ItemIsRead | api/odm/dynamicgroups.py:89-101 | an item is read as its attribute and the parts of its value (section 3 of RFC 4515) |
| DynamicGroups.Validate | api/odm/dynamicgroups.py:45-67 | accepts exactly one to sixteen well-formed conditions and returns them cleaned; otherwise the first fault of the first faulty one |
| DynamicGroups.FaultOf | api/odm/dynamicgroups.py:50-64 | a condition is without fault exactly when what it is cleaned to is well formed |
| DynamicGroups.FaultExactly | api/odm/dynamicgroups.py:45-68 | the attributes and comparisons there are, the missing and the overlong value, in the order they are looked for, and what is kept of a condition |
| DynamicGroups.WrittenExactly | api/odm/dynamicgroups.py:88-103 | the text of a condition by its comparison |
| DynamicGroups.TextExactly | api/odm/dynamicgroups.py:79-107 | the text of a query: who it is about, and the conditions joined by and or by or |
| DynamicGroups.BuildFilter | api/odm/dynamicgroups.py:70-107 | fails exactly for an unknown kind, attribute or operator, and else writes the filter text |
| DynamicGroups.ReadsAsIntended | api/odm/dynamicgroups.py:70-107 | for any value strings the text parses back to exactly the intended tree, if and only if there are conditions and none has an empty prefix |
| DynamicGroups.QueryMeans | api/odm/dynamicgroups.py:45-107 | for every validated query the parsed text holds of an entry exactly when the conditions do, for any entry and any case folding |
| DynamicGroups.IntendedMeans | api/odm/dynamicgroups.py:89-101 | each single condition's filter means the condition |
| DynamicGroups.ChangeIsRight | api/odm/dynamicgroups.py:119-132 | the change adds exactly the wanted names nobody has and removes exactly the present ones nobody wants, in whatever case they are written |
| DynamicGroups.NothingMoreToChange | api/odm/dynamicgroups.py:119-132 | there is nothing to change exactly when the members are who is wanted, whatever the case |
| Radius.RenderPolicies | api/odm/radius.py:87-154 | refuses exactly a bad network name or VLAN on an enabled rule, and else writes the enabled rules in order |
| Radius.DenyOverridesAllow | api/odm/radius.py:87-154 | for all rules in every order and all requests the policy rejects if a matching rule denies, else accepts with the VLAN of the last matching allow rule that sets one, else rejects, if and only if its guard can hold at the start and nothing accepted before |
| Radius.VerdictExactly | api/odm/radius.py:87-154 | the policy says no exactly when a rule about the request denies or none allows, and its VLAN is that of the last allowing rule that has one |
| Radius.MatchesExactly | api/odm/radius.py:108-123 | a rule is about a request by its group, its networks and whether the user is a computer |
| Radius.GroupMeans | api/odm/radius.py:109 | the group's name counts, and its distinguished name only without one; quotes are taken out |
| Radius.RendersExactly | api/odm/radius.py:111-133 | a rule is refused exactly for a network that is no name of one or a VLAN out of range |
| Radius.OrderExactly | api/odm/radius.py:101-106 | the enabled rules are written denials first, then by number, then as listed |
| Radius.WhatIsDecided | api/odm/radius.py:87-154 | what is decided from every starting Auth-Type |
| Radius.VlanDecided | api/odm/radius.py:128-140 | the VLAN is that of the matching allow rule with the highest number, the one listed last on a tie |
| Radius.VlanInRange | api/odm/radius.py:130-133 | a VLAN replied is between 1 and 4094 |
| Monitoring.Judge | api/odm/monitor.py:305-322 | judging the summaries judges the samples: above one interval every sample of the lookback breaks the rule and two lie at least 0.6 of the window apart, else the newest breaks it; the value reported is the newest |
| Monitoring.RowIsJudgedRightly | api/odm/monitor.py:305-322 | one row's verdict is the statement about its samples |
| Monitoring.JudgedExactly | api/odm/monitor.py:305-322 | in the numbers themselves: 60 seconds, 0.6 of the window, 120 seconds of lookback, and strictly beyond the threshold |
| Monitoring.SummaryExists | api/odm/monitor.py:279-303 | any samples but none have a summary |
| Monitoring.LookbackOutreachesWindow | api/odm/monitor.py:279-286 | judging the lookback comes to judging the window, in both directions, if and only if the window is at least two intervals |
| Alerts.Reconcile | api/odm/monitor.py:325-388 | however it is cut short the table stays sound and other rules' alerts as they were; done in full, the rule fires exactly where judged, showing the value judged, and each opening and resolution was told unless the host is under maintenance, when the opening is marked so |
| Alerts.OpenNew | api/odm/monitor.py:335-369 | the first loop never stops an alert and opens only what was judged firing |
| Alerts.CloseOld | api/odm/monitor.py:371-387 | the second loop resolves exactly what was open and is not judged firing |
| Alerts.Evaluate | api/odm/monitor.py:234-247 | after a full pass every enabled rule fires exactly where it was judged to |
| Alerts.Happen | api/odm/monitor.py:234-247 | a pass leaves the alerts of rules it does not judge, a removed rule those of the others, a sweep what fires or is not old, all as they were |
| Alerts.Live | api/odm/monitor.py:556-581 | over any run of cut and full passes, rule removals and sweeps: one alert per rule and series, a resolved alert never fires again, each opening and resolution is told at most once, and after a full pass every rule fires exactly where judged |
| Alerts.OpenedSound | api/odm/monitor.py:346-361 | opening an alert where none fires keeps the table sound, and its opening has not been told before |
| Alerts.ClosedSound | api/odm/monitor.py:374-377 | resolving a firing alert keeps the table sound, and its resolution has not been told before |
| LdapPool.PopUsable | api/odm/ldappool.py:53-61 | the connection used last that is bound, was used within 300 seconds and first used within 3600; each one passed over was not |
| LdapPool.Pool.TakeIdle | api/odm/ldappool.py:50-61 | hands out that connection of the kind asked for, by the same numbers, or none and an empty list |
| LdapPool.Pool.GiveBack | api/odm/ldappool.py:64-74 | a healthy bound connection is kept while there are fewer than eight, with its age from first use; else it is dropped |
| LdapPool.Pool.Close | api/odm/ldappool.py:76-80 | empties both lists and leaves what is lent |
| LdapPool.Pool.Enter | api/odm/ldappool.py:94-98 | a connection that comes from idle is bound, was used within 300 seconds and first used within 3600, however many trips it made, and is the last such; else a new one is opened; it was lent to nobody |
| LdapPool.Pool.Leave | api/odm/ldappool.py:99-108 | the connection of work that raised an error is not kept; that of work that finished or was cancelled is, while it is bound and there is room |
| LdapPool.Serve | api/odm/ldappool.py:42-108 | over any run every start gets a connection while the directory opens any, no connection is held by two pieces of work or idle while held, and the lists hold at most eight of their kind |
| LdapPool.HeldExactly | api/odm/ldappool.py:94-108 | in a run a start adds the connection it was given to what is held, an end takes away the one it ends |
| Assist.Link.Close | api/odm/assist.py:47-52 | closing puts one end marker in each queue, and closing again puts none |
| Assist.Link.Carry | api/odm/routes_agent.py:1677-1690 | frames carried are put at the end of their queue and leave the count of end markers as it is |
| Assist.Offer.OfferLink | api/odm/assist.py:84-87 | a fresh link is current and announced |
| Assist.Offer.TakeLink | api/odm/assist.py:89-98 | gives out the current link exactly when it is free, and no announcement is lost |
| Assist.Offer.End | api/odm/assist.py:100-103 | ends the offer and closes the current link |
| Assist.Offer.Leave | api/odm/routes_agent.py:1697-1703 | the agent's link is closed, and no longer current if it was |
| Assist.SecondsLeft | api/odm/assist.py:77-78 | the whole seconds left of the minutes, none once less than one is |
| Assist.Offer.Expired | api/odm/assist.py:80-82 | an offer is over exactly once it was ended or less than a whole second of its minutes is left |
| Assist.OverStaysOver | api/odm/assist.py:77-82 | an offer that has expired stays expired |
| Assist.AlwaysBridged | api/odm/assist.py:36-103 | over every interleaving each link is given to one viewer at most, a free current link has been announced, and each queue has exactly one end marker if its link is closed, else none |
| Assist.LeavingCloses | api/odm/routes_agent.py:1697-1703 | whichever side leaves, its link is closed and no other changes; an offer that ends closes the current one |
| Assist.FramesArrive | api/odm/routes_agent.py:1677-1690 | what a side sends is put at the end of the other's queue and nowhere else |
| Assist.AskingGetsTheLink | api/odm/routes_servers.py:623-639 | a viewer that asks while a free link is there gets it, and an agent that connects is there for the next that asks |
| Assist.Share | api/odm/assist.py:36-103 | the objects go through any run of events as the values of that theorem do |
| Assist.Registry.Get | api/odm/assist.py:137-143 | an offer that is over is never returned: it is ended and let go |
| Assist.Registry.Forget | api/odm/assist.py:145-148 | a forgotten offer is ended and gone |
| Assist.Registry.Sweep | api/odm/assist.py:150-154 | exactly the offers that are over are ended and let go |
| Assist.Registry.Create | api/odm/assist.py:110-135 | the new offer is there, and of the others only those that last |
| Replicas.OwnerIsRead | api/odm/replicas.py:40-47 | the number in front of a session id is read back exactly when it has at most nine digits |
| Replicas.OwnedExactly | api/odm/replicas.py:40-47 | an id names an owner only as one to nine digits, a dot and a token of 8 to 64 characters |
| Replicas.SuchIdsAreOwned | api/odm/replicas.py:40-47 | and every such id names it |
| Replicas.PathExactly | api/odm/replicas.py:40-47 | the four session paths, three of them only for websockets |
| Replicas.PathIsRead | api/odm/replicas.py:40-47 | a session path of any kind names the owner its id names |
| Replicas.Replica.Register | api/odm/replicas.py:61-77 | a replica with an address is registered under it, and numbers given before stay |
| Replicas.Replica.UrlOf | api/odm/replicas.py:97-105 | the looked-up address is the registered one, remembered or not |
| Replicas.Replica.Dispatch | api/odm/replicas.py:139-157 | a request goes across exactly when it names another registered replica's session |
| Replicas.OneHop | api/odm/replicas.py:61-157 | the replica that made a session keeps requests for it, and every other sends them straight to its address if and only if its number has at most nine digits |
| Naming.NumberIsRead | api/odm/naming.py:42-60 | a template's own name gives back its number, for every number, padding and digit-bearing prefix or suffix |
| Naming.NumberedOnlySo | api/odm/naming.py:42-50 | a name carries a number only as the prefix, digits and the suffix, in whatever case |
| Naming.SuchNamesAreNumbered | api/odm/naming.py:42-50 | and every such name carries it |
| Naming.RenderExactly | api/odm/naming.py:53-60 | a name is the prefix, the numeral filled up with zeros to the width, and the suffix |
| Naming.CaseIsIgnored | api/odm/naming.py:42-50 | names that differ in letter case only carry the same number |
| Naming.TemplatesAreLawful | api/odm/naming.py:42-60 | every template recovers the number from its own names, which hold no dot, and ignores case, which is what the assignments rest on |
| Naming.NextNumber | api/odm/naming.py:105-125 | the two loops compute the next number |
| Naming.NextIsOnePast | api/odm/naming.py:105-125 | that number is one past the highest in the directory or handed out, and 1 when there is none |
| Naming.NextExactly | api/odm/naming.py:105-125 | a number that is not 1 is one past a number in the directory or handed out under the template |
| Naming.NameIsNew | api/odm/naming.py:105-125 | a number above every one in use makes a name nobody has, in any case |
| Naming.Office.Assign | api/odm/naming.py:67-102 | the answer and the rows it leaves: none for a machine whose name fits, the remembered name for one that asks again, else a new number's name, unless another template gave that name away |
| Naming.AnswerExactly | api/odm/naming.py:67-102 | left alone, told the name assigned, told a new one, or refused because another has it, and the table that leaves |
| Naming.Office.Follow | api/odm/routes_agent.py:235-246 | every assignment under the old distinguished name is put under the new one, and none when two would share a key |
| Fleet.NewNamesAreFresh | api/odm/naming.py:67-125 | over every run of joining, asking, taking names, moving, renaming by hand and deleting, a number handed out is above every earlier one, its name differs in more than case from every machine's cn in the directory and from every earlier assignment, and it is handed out exactly to a machine that does not fit and has no assignment under its distinguished name; nobody is refused |
| HostNames.AboveHostsExactly | api/odm/naming.py:105-125 | in every run a number handed out is above those of all host names that fit, whatever the search returns, if and only if each of those is reached by some cn or some assignment |
| HostNames.TemplatesSpareHosts | api/odm/naming.py:105-125 | for every template, in every run the name handed out is no machine's host name, if and only if machines join under their host names, moves keep the cn, no host name that fits is set by hand, and only machines that do not fit take names; each of the four alone lets a run collide |
| Fleet.SameNameExactly | api/odm/naming.py:78-83 | a machine asking again is told a given assignment's name, whatever its lookup returns, if and only if that one and no other is under the distinguished name it has then |
| Fleet.StepKeepsRow | api/odm/routes_agent.py:209-246 | a step leaves a machine with its assignment if and only if it does not delete the machine and leaves its distinguished name, up to case, or takes the name in full where no assignment is under the new one |
| Fleet.RunKeepsRow | api/odm/routes_agent.py:209-246 | the same through any run |
| Fleet.NamesAreOwn | api/odm/naming.py:78-102 | through any such run the machine is told that name or left alone, and no other machine is told a name that differs from it in case only |
| Fleet.TakenExactly | api/odm/routes_agent.py:209-246 | what taking a name changes, by how far it gets: the name in the directory, the host name, the assignments |
| Fleet.MoveLosesTheName | api/odm/routes_directory.py:440-456 | a machine moved to where no assignment is gets another name, and whoever joins under the distinguished name it left gets the one it had |
| Fleet.MovedIsToldAnother | api/odm/routes_directory.py:440-456 | a run from the start in which a moved machine is told two names that differ in more than case |
| Fleet.Live | api/odm/naming.py:67-125 | the table of assignments goes through any run of asks, takings, moves and deletions as those theorems say |
| ReverseDns.PointerFor | api/odm/dns.py:289-307 | the zone is the most specific listed one, and name and zone together are the whole address backwards (section 3.5 of RFC 1035); none exactly when no zone is listed |
| ReverseDns.OneZoneServesItsNetwork | api/odm/dns.py:263-307 | with one network's zone listed exactly the addresses of that network have a pointer |
| ReverseDns.PointerInZone | api/odm/dns.py:263-307 | the same of the lookup itself |
| ReverseDns.ZoneExactly | api/odm/dns.py:285-286 | a zone is the octets, last first, and in-addr.arpa |
| ReverseDns.NetworkExactly | api/odm/dns.py:283-286 | only networks of 8, 16 and 24 bits have one, of their first one, two or three octets |
| ReverseDns.ZonesDiffer | api/odm/dns.py:285-286 | different runs of octets, of whatever length, have different zones |
| ReverseDns.PointersDiffer | api/odm/dns.py:289-307 | no two addresses have the same pointer |
| Numerals.PadRead | api/odm/naming.py:59-60 | a numeral is padded to the width exactly, and reads back as its number |
| Numerals.PrintExactly | api/odm/naming.py:59-60 | numerals are decimal and have no leading zero |
| AgentLoop.Machine.ApplyOnce | agent/main.go:648-817 | each outcome by what was fetched, the saved serial, the force, the report and the failures; the appliers run unless nothing was fetched or changed; the file changes only after a pass over the whole machine that ran, was reported and had no failure, and then holds the serial and the version |
| AgentLoop.ErrorExactly | agent/main.go:740-817 | a pass is an error exactly when nothing was fetched, or it ran and a setting or the report failed |
| AgentLoop.ReadsBack | agent/main.go:997-1014 | the version that saved a serial reads it back |
| AgentLoop.PartIsRead | agent/main.go:997-1014 | a file written in part reads as nothing or as the serial written, and that only to a version whose name starts the writer's |
| AgentLoop.UnchangedMeansSaved | agent/main.go:740-817 | policy unchanged means the last save that reached the file was of this serial by this version |
| AgentLoop.UnchangedKeepsPromise | agent/main.go:740-817 | with whole saves, policy unchanged means this version applied the serial in full and no pass since succeeded with another |
| AgentLoop.LostSaveBreaksPromise | agent/main.go:1009-1014 | one lost save is enough to break that |
| AgentLoop.TornSaveBreaksPromise | agent/main.go:997-1014 | so is one save cut short inside the version |
| AgentLoop.EmptySerialBreaksPromise | agent/main.go:740-817 | so is an empty serial, before anything was applied |
| AgentLoop.PromiseExactly | agent/main.go:740-817 | the promise holds in every run whose saves may be lost or cut short or whose serials may be empty, as allowed, if and only if none of the three is allowed |
| AgentLoop.AppliedUntilDone | agent/main.go:740-817 | a serial not applied in full is applied on every pass that gets it |
| AgentLoop.DoneIsLeftAlone | agent/main.go:740-817 | once applied and saved it is left alone exactly while unforced, the version stays and no update waits |
| AgentLoop.AfterFailures | agent/main.go:557-566 | the doubling loop computes the delay |
| AgentLoop.DelayIsBounded | agent/main.go:555-566 | the delay lies between the lesser of 30 seconds and the interval, and the interval, never shrinks as failures grow, and stops growing at 128 minutes or the interval |
| AgentLoop.DelayExactly | agent/main.go:555-566 | half a minute after one failure, doubled with each more, eight times, unless the interval is shorter |
| AgentLoop.FailuresMean | agent/main.go:527-535 | failures in a row are the failing passes since the last that did not fail |
| AgentLoop.DaemonPassMeans | agent/main.go:519-543 | a pass of the daemon is for the machine, and forced exactly after a refresh |
| AgentLoop.RunDaemon | agent/main.go:510-545 | from any file left before and over any run, the outcomes, the file, the forcing after a refresh and the waits after failures in a row |

## Left out

- PhoneApproval.OldTapsDoNothing: states what the documentation promises only for a challenge nobody is still reading, because the code accepts a tap that such a reader finds; `LateTapExactly` says just when.
- Leadership.OldLeaderIsBounded: how long a cancelled task takes to end is not modelled.
- Leadership.StopExactly: a replica cancelled while it unlocks or gives its connection back leaves off at once; the connection, which may still hold the lock, is then nobody's until it goes.
- AgentLoop.UnchangedKeepsPromise: is about the serial only. Going back to a policy after a newer one was applied in part leaves the machine's files as that left them, and nothing is claimed about them.
- Alerts.Live: a rule removed while its own pass is between two statements is taken as removed before or after that pass.
- Replicas.OneHop: the requests are those for session paths; carrying the bytes across is not modelled.
- Fleet.NewNamesAreFresh: is for one numeric template; `Assign` itself allows several, and a name taken under another is refused. An ask is one step: of two that read the same highest number at once, the table's unique index lets one through, and that refusal is not modelled. The role that exempts a machine from naming, and the other tables that follow a rename, are left out.
- OidcTokens.ClientsDoNotInterfere: takes the names of codes, tokens and requests as never drawn twice, as their length is meant to ensure.
- Letter case is folded over ASCII letters only (`Lower`), and digits and white space are the ASCII ones a space, tab to carriage return; Python's are Unicode's.
- A list category holds a list and a dictionary category a dictionary, as the schema has it; a list category that holds something else, the validators of that schema, and entries that are not dictionaries, are not modelled. Identities are the joined strings the code makes, so fields holding a vertical bar may collide as they do there.
- Shell patterns, network membership, the S256 hash, signatures and encryption are parameters; certificates, RSA and AES are not modelled.
- The characters the LDAP library escapes are taken from section 3 of RFC 4515; its code is not in the repository. Extensible matches are not parsed, and ordering comparisons never hold, since no attribute here is ordered.
- FreeRADIUS is taken to end the policy at a reject and to compare strings exactly; the text of the unlang, a rule's name in its comment and the client list are not modelled.
- Numbers are exact reals where the code has floating point (samples, times).
- Alerts of machines that stopped reporting are judged by one query, and the choice of series by scope and metric by another; both reach `Alerts` as what was judged.
- Resetting the connection pool when the process ends, and threads, are not modelled; the lock makes each operation on the idle lists one step.
- The enrolment of a phone, recovery codes, time-based codes and the agent's second factor files are not modelled.
- Parsing an IPv4 address or network, IPv6 reverse zones, filling a new zone from existing records, and every call to samba-tool are not modelled.
- Templates are taken as split at their one `{n}`; `{serial}` templates and the check of a template are left out, as they add only easy members.
- AgentLoop.RunDaemon: leaves out the random jitter, of less than a tenth of the wait, that is added to each wait.
- The appliers, queued work, the inventory, self-update, certificates and the metrics loop of the agent appear only as succeeding or failing.
- Liveness and fairness, beyond the bounds stated, are not claimed.
- The description of a dynamic group, the order a membership change is listed in, the console's pages, the audit log and the notification texts would add only easy members.
