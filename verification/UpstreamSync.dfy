/** Keeping a channel's model list in step with the models its upstream offers. */
module UpstreamSync {
  import opened Numbers
  import opened Options
  import opened Text
  import opened ModelNames

  /** Whether a pattern matches a name; a pattern that does not compile matches nothing. */
  type Regex = (string, string) -> bool

  const REGEX_PREFIX := "regex:"

  predicate IsRegex(entry: string) {
    REGEX_PREFIX <= entry
  }

  predicate Ignores(entry: string, name: string, matches: Regex) {
    if IsRegex(entry) then matches(TrimSpace(entry[|REGEX_PREFIX|..]), name) else entry == name
  }

  predicate Ignored(ignored: seq<string>, name: string, matches: Regex) {
    exists i :: 0 <= i < |ignored| && Ignores(ignored[i], name, matches)
  }

  predicate Wanted(local: seq<string>, ignored: seq<string>, mapping: map<string, string>, matches: Regex,
      name: string) {
    name !in local && name !in mapping.Values && !Ignored(ignored, name, matches)
  }

  function PendingAdd(local: seq<string>, upstream: seq<string>, ignored: seq<string>, mapping: map<string, string>,
                      matches: Regex): seq<string>
  {
    Pick(Normalize(upstream), (x: string) => Wanted(Normalize(local), Normalize(ignored), mapping, matches, x))
  }

  function PendingRemove(local: seq<string>, upstream: seq<string>, mapping: map<string, string>): seq<string> {
    Pick(Normalize(local), (x: string) => x !in mapping && x !in Normalize(upstream))
  }

  method CollectPending(local: seq<string>, upstream: seq<string>, ignored: seq<string>, mapping: map<string, string>,
                        matches: Regex)
    returns (add: seq<string>, remove: seq<string>)
    ensures add == PendingAdd(local, upstream, ignored, mapping, matches)
    ensures remove == PendingRemove(local, upstream, mapping)
  {
    var localModels, upstreamModels, ignoredModels := Normalize(local), Normalize(upstream), Normalize(ignored);
    var localSet := NameSet(localModels);
    var upstreamSet := NameSet(upstreamModels);
    var covered := localSet + mapping.Values;
    NormalizeIs(local);
    NormalizeIs(upstream);
    ghost var p := (x: string) => Wanted(localModels, ignoredModels, mapping, matches, x);
    ghost var q := (x: string) => x !in mapping && x !in upstreamModels;
    add, remove := [], [];
    for i := 0 to |upstreamModels|
      invariant add == Pick(upstreamModels[..i], p)
    {
      assert upstreamModels[..i + 1][..i] == upstreamModels[..i];
      if upstreamModels[i] in covered || Ignored(ignoredModels, upstreamModels[i], matches) { continue; }
      add := add + [upstreamModels[i]];
    }
    for i := 0 to |localModels|
      invariant remove == Pick(localModels[..i], q)
    {
      assert localModels[..i + 1][..i] == localModels[..i];
      if localModels[i] in mapping || localModels[i] in upstreamSet { continue; }
      remove := remove + [localModels[i]];
    }
    assert upstreamModels[..|upstreamModels|] == upstreamModels && localModels[..|localModels|] == localModels;
    PickIs(upstreamModels, p);
    PickIs(localModels, q);
    NormalizeClean(add);
    NormalizeClean(remove);
    add, remove := Normalize(add), Normalize(remove);
  }

  // ---------------------------------------------------------------------------
  // The record of a channel and what is done to it
  // ---------------------------------------------------------------------------

  datatype Record = Record(
    models: string, mapping: map<string, string>, ignored: seq<string>, detected: seq<string>, removed: seq<string>,
    autoSync: bool, lastCheck: int)

  function GetModels(models: string): seq<string> {
    ReadList(models, ',')
  }

  function Local(r: Record): seq<string> {
    Normalize(GetModels(r.models))
  }

  /**
   A check asks the upstream, which may fail, at some time; an application carries a request.
   `stored` says whether the database took the write.
   */
  datatype Action =
    | Check(force: bool, allowAutoApply: bool, now: int, minInterval: int, upstream: Option<seq<string>>, stored: bool)
    | Apply(add: seq<string>, ignore: seq<string>, remove: seq<string>, now: int, stored: bool)

  function Skipped(r: Record, a: Action): bool
    requires a.Check?
  {
    !a.force && r.lastCheck > 0 && a.now - r.lastCheck < a.minInterval
  }

  /** What a check that got an answer writes. */
  function Checked(r: Record, upstream: seq<string>, allowAutoApply: bool, now: int, matches: Regex): Record {
    var add := PendingAdd(GetModels(r.models), upstream, r.ignored, r.mapping, matches);
    var remove := PendingRemove(GetModels(r.models), upstream, r.mapping);
    var r' := r.(removed := remove, lastCheck := now);
    if allowAutoApply && r.autoSync && add != [] then
      var merged := Merge(Local(r), add);
      if |merged| > |Local(r)| then r'.(models := Join(merged, ','), detected := []) else r'.(detected := [])
    else r'.(detected := add)
  }

  function Adding(r: Record, add: seq<string>): seq<string> {
    Intersect(add, Normalize(r.detected))
  }

  function Removing(r: Record, add: seq<string>, remove: seq<string>): seq<string> {
    Subtract(Intersect(remove, Normalize(r.removed)), Adding(r, add))
  }

  /** What an application writes. */
  function Applied(r: Record, add: seq<string>, ignore: seq<string>, remove: seq<string>, now: int): Record {
    var addModels, removeModels := Adding(r, add), Removing(r, add, remove);
    var ignoreModels := Intersect(ignore, Normalize(r.detected));
    var next := ApplySelected(Local(r), addModels, removeModels);
    var ignored := Merge(r.ignored, ignoreModels);
    Record(
      if next != Local(r) then Join(next, ',') else r.models,
      r.mapping,
      if addModels != [] then Subtract(ignored, addModels) else ignored,
      Subtract(Normalize(r.detected), addModels + ignoreModels),
      Subtract(Normalize(r.removed), removeModels),
      r.autoSync,
      now)
  }

  function Step(r: Record, a: Action, matches: Regex): Record {
    match a
    case Check(_, allowAutoApply, now, _, upstream, stored) =>
      if Skipped(r, a) || !stored then r
      else if upstream == None then r.(lastCheck := now)
      else Checked(r, upstream.value, allowAutoApply, now, matches)
    case Apply(add, ignore, remove, now, stored) =>
      if stored then Applied(r, add, ignore, remove, now) else r
  }

  // ---------------------------------------------------------------------------
  // Storing names
  // ---------------------------------------------------------------------------

  ghost predicate NoComma(models: seq<string>) {
    forall i :: 0 <= i < |models| ==> ',' !in models[i]
  }

  lemma LocalIsClean(r: Record)
    ensures Clean(Local(r))
  {
    NormalizeIs(GetModels(r.models));
  }

  lemma {:induction false} TrimKeepsOut(s: string, cut: set<char>, c: char)
    requires c !in s
    ensures c !in Trim(s, cut)
    decreases |s|
  {
    if s == [] {
    } else if s[0] in cut {
      TrimKeepsOut(s[1..], cut, c);
    } else if s[|s| - 1] in cut {
      TrimKeepsOut(s[..|s| - 1], cut, c);
    }
  }

  /** No name read from the column holds a comma. */
  lemma LocalHasNoComma(r: Record)
    ensures NoComma(Local(r))
  {
    var models := GetModels(r.models);
    NormalizeIs(models);
    forall i | 0 <= i < |Local(r)| ensures ',' !in Local(r)[i] {
      assert Names(models, Local(r)[i]);
      var k :| 0 <= k < |models| && TrimSpace(models[k]) == Local(r)[i];
      SplitPartsClean(Trim(r.models, {','}), ',', k);
      TrimKeepsOut(models[k], SPACES, ',');
    }
  }

  /** `x` is one of the names that `name` falls into when it is read back. */
  ghost predicate Piece(x: string, name: string) {
    Names(Split(name, ','), x)
  }

  ghost predicate PieceOf(x: string, models: seq<string>) {
    exists name :: name in models && Piece(x, name)
  }

  /** A clean name is its only piece exactly when it holds no comma; otherwise it is none of its pieces. */
  lemma PieceIsName(x: string, name: string)
    requires name != [] && TrimSpace(name) == name
    ensures ',' !in name ==> (Piece(x, name) <==> x == name)
    ensures Piece(x, name) ==> ',' !in x
  {
    if ',' !in name {
      SplitOnce(name, [], ',');
      assert Split(name, ',')[0] == name;
    }
    if Piece(x, name) {
      var k :| 0 <= k < |Split(name, ',')| && TrimSpace(Split(name, ',')[k]) == x;
      SplitPartsClean(name, ',', k);
      TrimKeepsOut(Split(name, ',')[k], SPACES, ',');
    }
  }

  lemma {:induction false} TrimKeepsNames(s: string, x: string)
    ensures Names(Split(Trim(s, {','}), ','), x) <==> Names(Split(s, ','), x)
    decreases |s|
  {
    if s == [] {
    } else if s[0] == ',' {
      TrimKeepsNames(s[1..], x);
      assert Split(s, ',') == [[]] + Split(s[1..], ',');
      NamesConcat([[]], Split(s[1..], ','), x);
    } else if s[|s| - 1] == ',' {
      var front := s[..|s| - 1];
      TrimKeepsNames(front, x);
      assert s == front + [','] + [];
      SplitAppend(front, [], ',');
      NamesConcat(Split(front, ','), [[]], x);
    }
  }

  lemma {:induction false} JoinNames(models: seq<string>, x: string)
    ensures Names(Split(Join(models, ','), ','), x) <==> PieceOf(x, models)
  {
    if |models| == 1 {
      assert models[0] in models;
    } else if |models| > 1 {
      var rest := models[1..];
      JoinNames(rest, x);
      SplitAppend(models[0], Join(rest, ','), ',');
      NamesConcat(Split(models[0], ','), Split(Join(rest, ','), ','), x);
      assert models == [models[0]] + rest;
      PieceOfConcat([models[0]], rest, x);
      assert PieceOf(x, [models[0]]) <==> Piece(x, models[0]) by { assert models[0] in [models[0]]; }
    }
  }

  lemma PieceOfConcat(a: seq<string>, b: seq<string>, x: string)
    ensures PieceOf(x, a + b) <==> PieceOf(x, a) || PieceOf(x, b)
  {
    if name :| name in a && Piece(x, name) { assert name in a + b; }
    if name :| name in b && Piece(x, name) { assert name in a + b; }
  }

  /** The names read back from a list are the pieces of the names written, whatever they hold. */
  lemma StoredPieces(r: Record, models: seq<string>, x: string)
    ensures x in Local(r.(models := Join(models, ','))) <==> PieceOf(x, models)
  {
    var text := Join(models, ',');
    NormalizeIs(GetModels(text));
    TrimKeepsNames(text, x);
    JoinNames(models, x);
    assert text == [] ==> Split(text, ',') == [[]];
  }

  lemma CleanPieces(models: seq<string>, x: string)
    requires Clean(models) && NoComma(models)
    ensures PieceOf(x, models) <==> x in models
  {
    forall name | name in models ensures Piece(x, name) <==> x == name { PieceIsName(x, name); }
  }

  /** The list written is the list read exactly when no name in it holds a comma. */
  lemma StoredModelsIff(r: Record, models: seq<string>)
    requires Clean(models)
    ensures Local(r.(models := Join(models, ','))) == models <==> NoComma(models)
  {
    LocalHasNoComma(r.(models := Join(models, ',')));
    if NoComma(models) {
      ReadBackIff(models, ',');
      NormalizeClean(models);
    }
  }

  // ---------------------------------------------------------------------------
  // What each step does
  // ---------------------------------------------------------------------------

  lemma PendingAddIs(local: seq<string>, upstream: seq<string>, ignored: seq<string>, mapping: map<string, string>,
      matches: Regex)
    ensures Clean(PendingAdd(local, upstream, ignored, mapping, matches))
    ensures forall x :: x in PendingAdd(local, upstream, ignored, mapping, matches) <==>
              x in Normalize(upstream) && Wanted(Normalize(local), Normalize(ignored), mapping, matches, x)
  {
    NormalizeIs(upstream);
    PickIs(Normalize(upstream), (x: string) => Wanted(Normalize(local), Normalize(ignored), mapping, matches, x));
  }

  lemma PendingRemoveIs(local: seq<string>, upstream: seq<string>, mapping: map<string, string>)
    ensures Clean(PendingRemove(local, upstream, mapping))
    ensures forall x :: x in PendingRemove(local, upstream, mapping) <==>
              x in Normalize(local) && x !in mapping && x !in Normalize(upstream)
  {
    NormalizeIs(local);
    PickIs(Normalize(local), (x: string) => x !in mapping && x !in Normalize(upstream));
  }

  function ToAdd(r: Record, upstream: seq<string>, matches: Regex): seq<string> {
    PendingAdd(GetModels(r.models), upstream, r.ignored, r.mapping, matches)
  }

  predicate AutoApplies(r: Record, upstream: seq<string>, allowAutoApply: bool, matches: Regex) {
    allowAutoApply && r.autoSync && ToAdd(r, upstream, matches) != []
  }

  /** A check never takes a model away; with auto-sync it appends all missing ones, otherwise it lists them. */
  lemma CheckedIs(r: Record, upstream: seq<string>, allowAutoApply: bool, now: int, matches: Regex)
    ensures var r' := Checked(r, upstream, allowAutoApply, now, matches);
            var add := ToAdd(r, upstream, matches);
            && Clean(add) && Clean(r'.removed)
            && (forall x :: x in add <==>
                x in Normalize(upstream) && Wanted(Local(r), Normalize(r.ignored), r.mapping, matches, x))
            && (forall x :: x in r'.removed <==> x in Local(r) && x !in r.mapping && x !in Normalize(upstream))
            && (if AutoApplies(r, upstream, allowAutoApply, matches) then
                  && r'.detected == [] && (NoComma(add) ==> Local(r') == Local(r) + add)
                  && forall x :: x in Local(r') <==> x in Local(r) || PieceOf(x, add)
                else Local(r') == Local(r) && r'.detected == add)
            && r'.ignored == r.ignored && r'.mapping == r.mapping && r'.autoSync == r.autoSync
  {
    PendingAddIs(GetModels(r.models), upstream, r.ignored, r.mapping, matches);
    PendingRemoveIs(GetModels(r.models), upstream, r.mapping);
    MergedIsAppended(r, ToAdd(r, upstream, matches));
  }

  lemma MergedIsAppended(r: Record, add: seq<string>)
    requires Clean(add) && forall x :: x in add ==> x !in Local(r)
    ensures Merge(Local(r), add) == Local(r) + add
    ensures NoComma(add) ==> Local(r.(models := Join(Merge(Local(r), add), ','))) == Local(r) + add
    ensures forall x :: x in Local(r.(models := Join(Merge(Local(r), add), ','))) <==> x in Local(r) || PieceOf(x, add)
  {
    LocalIsClean(r);
    LocalHasNoComma(r);
    NormalizeClean(Local(r));
    NormalizeClean(add);
    PickAll(add, (x: string) => x !in Local(r));
    CleanConcat(Local(r), add);
    StoredModelsIff(r, Local(r) + add);
    forall x ensures x in Local(r.(models := Join(Local(r) + add, ','))) <==> x in Local(r) || PieceOf(x, add) {
      StoredPieces(r, Local(r) + add, x);
      PieceOfConcat(Local(r), add, x);
      CleanPieces(Local(r), x);
    }
  }

  lemma NormalizeConcat(a: seq<string>, b: seq<string>)
    ensures forall x :: x in Normalize(a + b) <==> x in Normalize(a) || x in Normalize(b)
  {
    NormalizeIs(a);
    NormalizeIs(b);
    NormalizeIs(a + b);
    forall x ensures Names(a + b, x) <==> Names(a, x) || Names(b, x) { NamesConcat(a, b, x); }
  }

  lemma SelectionIs(r: Record, add: seq<string>, remove: seq<string>)
    ensures Clean(Adding(r, add)) && Clean(Removing(r, add, remove))
    ensures forall x :: x in Adding(r, add) <==> x in Normalize(add) && x in Normalize(r.detected)
    ensures forall x :: x in Removing(r, add, remove) <==>
              x in Normalize(remove) && x in Normalize(r.removed) && x !in Adding(r, add)
  {
    NormalizeIs(r.detected);
    NormalizeIs(r.removed);
    NormalizeClean(Normalize(r.detected));
    NormalizeClean(Normalize(r.removed));
    IntersectIs(add, Normalize(r.detected));
    IntersectIs(remove, Normalize(r.removed));
    NormalizeClean(Adding(r, add));
    NormalizeClean(Intersect(remove, Normalize(r.removed)));
    SubtractIs(Intersect(remove, Normalize(r.removed)), Adding(r, add));
  }

  /** The models after an application: the old ones without the removals, and what the additions read back as. */
  lemma AppliedModels(r: Record, add: seq<string>, ignore: seq<string>, remove: seq<string>, now: int)
    ensures var r' := Applied(r, add, ignore, remove, now);
            && (NoComma(Adding(r, add)) ==>
                Local(r') == ApplySelected(Local(r), Adding(r, add), Removing(r, add, remove)))
            && forall x :: x in Local(r') <==>
                (x in Local(r) && x !in Removing(r, add, remove)) || PieceOf(x, Adding(r, add))
  {
    var a, d := Adding(r, add), Removing(r, add, remove);
    var r', next := Applied(r, add, ignore, remove, now), ApplySelected(Local(r), a, d);
    SelectionIs(r, add, remove);
    LocalIsClean(r);
    LocalHasNoComma(r);
    NormalizeClean(Local(r));
    NormalizeClean(a);
    NormalizeClean(d);
    ApplySelectedIs(Local(r), a, d);
    assert Local(r') == Local(r.(models := if next != Local(r) then Join(next, ',') else r.models));
    if NoComma(a) {
      forall i | 0 <= i < |next| ensures ',' !in next[i] { assert next[i] in next; }
      StoredModelsIff(r, next);
    }
    forall x ensures x in Local(r') <==> (x in Local(r) && x !in d) || PieceOf(x, a) {
      NextPieces(r, a, d, next, x);
      StoredPieces(r, next, x);
    }
  }

  lemma NextPieces(r: Record, a: seq<string>, d: seq<string>, next: seq<string>, x: string)
    requires forall y :: y in next <==> y in a || (y in Local(r) && y !in d)
    ensures PieceOf(x, next) <==> (x in Local(r) && x !in d) || PieceOf(x, a)
    ensures next == Local(r) ==> (x in Local(r) <==> (x in Local(r) && x !in d) || PieceOf(x, a))
  {
    LocalIsClean(r);
    LocalHasNoComma(r);
    forall y | y in Local(r) ensures Piece(x, y) <==> x == y { PieceIsName(x, y); }
  }

  /** The three lists after an application. */
  lemma AppliedLists(r: Record, add: seq<string>, ignore: seq<string>, remove: seq<string>, now: int)
    ensures var r' := Applied(r, add, ignore, remove, now);
            && Clean(r'.ignored) && Clean(r'.detected) && Clean(r'.removed)
            && (forall x :: x in r'.ignored <==>
                  (x in Normalize(r.ignored) || (x in Normalize(ignore) && x in Normalize(r.detected)))
                      && x !in Adding(r, add))
            && (forall x :: x in r'.detected <==>
                x in Normalize(r.detected) && x !in Normalize(add) && x !in Normalize(ignore))
            && (forall x :: x in r'.removed <==> x in Normalize(r.removed) && x !in Removing(r, add, remove))
  {
    var a, d, g := Adding(r, add), Removing(r, add, remove), Intersect(ignore, Normalize(r.detected));
    SelectionIs(r, add, remove);
    SelectionIs(r, ignore, remove);
    NormalizeClean(a);
    NormalizeClean(d);
    NormalizeClean(g);
    MergeIs(r.ignored, g);
    NormalizeClean(Merge(r.ignored, g));
    SubtractIs(Merge(r.ignored, g), a);
    NormalizeIs(r.detected);
    NormalizeIs(r.removed);
    NormalizeClean(Normalize(r.detected));
    NormalizeClean(Normalize(r.removed));
    NormalizeConcat(a, g);
    SubtractIs(Normalize(r.detected), a + g);
    SubtractIs(Normalize(r.removed), d);
  }

  /**
   Each model waiting to be added goes to exactly one place: the model list when it is selected for
   adding, else the ignore list when it is to be ignored, else it keeps waiting. A name with a comma
   is the exception: it enters the model list as its pieces.
   */
  lemma ApplyPartitions(r: Record, add: seq<string>, ignore: seq<string>, remove: seq<string>, now: int, x: string)
    requires Inv(r) && x in r.detected
    ensures var r' := Applied(r, add, ignore, remove, now);
            && (x in Local(r') <==> PieceOf(x, Adding(r, add)))
            && (NoComma(Adding(r, add)) ==> (x in Local(r') <==> x in Normalize(add)))
            && (x in r'.detected <==> x !in Normalize(add) && x !in Normalize(ignore))
            && (!IsRegex(x) ==> (x in r'.ignored <==> x !in Normalize(add) && x in Normalize(ignore)))
  {
    NormalizeClean(r.detected);
    NormalizeClean(r.removed);
    SelectionIs(r, add, remove);
    AppliedModels(r, add, ignore, remove, now);
    AppliedLists(r, add, ignore, remove, now);
    if NoComma(Adding(r, add)) { CleanPieces(Adding(r, add), x); }
  }

  // ---------------------------------------------------------------------------
  // Every run
  // ---------------------------------------------------------------------------

  /** What waits to be added is not there, not a redirect target and not ignored by name. */
  ghost predicate DetectedOk(r: Record) {
    && Clean(r.detected)
    && (forall x :: x in r.detected ==>
        x !in Local(r) && x !in r.mapping.Values && (IsRegex(x) || x !in Normalize(r.ignored)))
  }

  /** What waits to be removed is there and is no redirect source. */
  ghost predicate RemovedOk(r: Record) {
    Clean(r.removed) && forall x :: x in r.removed ==> x in Local(r) && x !in r.mapping
  }

  /** The two waiting lists are in step with the model list. */
  ghost predicate Inv(r: Record) {
    DetectedOk(r) && RemovedOk(r)
  }

  lemma CheckInv(r: Record, upstream: seq<string>, allowAutoApply: bool, now: int, matches: Regex)
    ensures Inv(Checked(r, upstream, allowAutoApply, now, matches))
  {
    CheckedIs(r, upstream, allowAutoApply, now, matches);
    NormalizeIs(r.ignored);
    forall x | x in ToAdd(r, upstream, matches) && !IsRegex(x) ensures x !in Normalize(r.ignored) {
      forall i | 0 <= i < |Normalize(r.ignored)| ensures Normalize(r.ignored)[i] != x {
        assert !Ignores(Normalize(r.ignored)[i], x, matches);
      }
    }
  }

  /** No name that keeps waiting is a piece of a name that is added. */
  ghost predicate Tidy(r: Record, add: seq<string>, ignore: seq<string>) {
    forall x :: x in r.detected && x !in Normalize(add) && x !in Normalize(ignore) ==> !PieceOf(x, Adding(r, add))
  }

  lemma ApplyKeepsRemovedOk(r: Record, add: seq<string>, ignore: seq<string>, remove: seq<string>, now: int)
    requires RemovedOk(r)
    ensures RemovedOk(Applied(r, add, ignore, remove, now))
  {
    NormalizeClean(r.removed);
    AppliedModels(r, add, ignore, remove, now);
    AppliedLists(r, add, ignore, remove, now);
  }

  /** An application keeps the lists in step exactly when it is tidy. */
  lemma ApplyInvIff(r: Record, add: seq<string>, ignore: seq<string>, remove: seq<string>, now: int)
    requires Inv(r)
    ensures Inv(Applied(r, add, ignore, remove, now)) <==> Tidy(r, add, ignore)
  {
    NormalizeClean(r.detected);
    ApplyKeepsRemovedOk(r, add, ignore, remove, now);
    SelectionIs(r, add, remove);
    AppliedModels(r, add, ignore, remove, now);
    AppliedLists(r, add, ignore, remove, now);
    NormalizeClean(Applied(r, add, ignore, remove, now).ignored);
  }

  ghost predicate TidyStep(r: Record, a: Action) {
    a.Apply? && a.stored ==> Tidy(r, a.add, a.ignore)
  }

  lemma StepInvIff(r: Record, a: Action, matches: Regex)
    requires Inv(r)
    ensures Inv(Step(r, a, matches)) <==> TidyStep(r, a)
  {
    match a
    case Check(_, allowAutoApply, now, _, upstream, _) =>
      if upstream.Some? { CheckInv(r, upstream.value, allowAutoApply, now, matches); }
    case Apply(add, ignore, remove, now, _) => ApplyInvIff(r, add, ignore, remove, now);
  }

  function Run(r: Record, actions: seq<Action>, matches: Regex): Record {
    if actions == [] then r else Step(Run(r, actions[..|actions| - 1], matches), actions[|actions| - 1], matches)
  }

  ghost predicate InvAfter(r: Record, actions: seq<Action>, matches: Regex, k: nat)
    requires k <= |actions|
  {
    Inv(Run(r, actions[..k], matches))
  }

  ghost predicate TidyAt(r: Record, actions: seq<Action>, matches: Regex, k: nat)
    requires k < |actions|
  {
    TidyStep(Run(r, actions[..k], matches), actions[k])
  }

  lemma RunSnoc(r: Record, actions: seq<Action>, matches: Regex, k: nat)
    requires k < |actions|
    ensures Run(r, actions[..k + 1], matches) == Step(Run(r, actions[..k], matches), actions[k], matches)
  {
    assert actions[..k + 1][..k] == actions[..k];
  }

  lemma InvAfterIff(r: Record, actions: seq<Action>, matches: Regex, k: nat)
    requires k < |actions| && InvAfter(r, actions, matches, k)
    ensures InvAfter(r, actions, matches, k + 1) <==> TidyAt(r, actions, matches, k)
  {
    RunSnoc(r, actions, matches, k);
    StepInvIff(Run(r, actions[..k], matches), actions[k], matches);
  }

  /**
   Over every run, with failed fetches, failed writes and skipped checks, the lists are in step after the
   first k actions and every number before exactly when each application among them is tidy.
   */
  lemma RunInvIff(r: Record, actions: seq<Action>, matches: Regex, k: nat)
    requires Inv(r) && k <= |actions|
    ensures (forall m: nat :: m <= k ==> InvAfter(r, actions, matches, m))
            <==> forall m: nat :: m < k ==> TidyAt(r, actions, matches, m)
  {
    var good := (m: nat) => m <= |actions| && InvAfter(r, actions, matches, m);
    var fine := (m: nat) => m < |actions| && TidyAt(r, actions, matches, m);
    assert actions[..0] == [];
    forall m: nat | m < k && good(m) ensures good(m + 1) <==> fine(m) { InvAfterIff(r, actions, matches, m); }
    StepsIff(good, fine, k);
    assert forall m: nat :: m <= k ==> (good(m) <==> InvAfter(r, actions, matches, m));
    assert forall m: nat :: m < k ==> (fine(m) <==> TidyAt(r, actions, matches, m));
  }

  ghost predicate PlainAnswers(actions: seq<Action>) {
    forall i :: 0 <= i < |actions| && actions[i].Check? && actions[i].upstream.Some? ==>
        NoComma(Normalize(actions[i].upstream.value))
  }

  lemma PlainStep(r: Record, a: Action, matches: Regex)
    requires Inv(r) && NoComma(r.detected)
    requires a.Check? && a.upstream.Some? ==> NoComma(Normalize(a.upstream.value))
    ensures Inv(Step(r, a, matches)) && NoComma(Step(r, a, matches).detected)
  {
    var r' := Step(r, a, matches);
    StepInvIff(r, a, matches);
    NormalizeClean(r.detected);
    match a
    case Check(_, allowAutoApply, now, _, upstream, _) =>
      if upstream.Some? { CheckedIs(r, upstream.value, allowAutoApply, now, matches); }
      forall i | 0 <= i < |r'.detected| ensures ',' !in r'.detected[i] { assert r'.detected[i] in r'.detected; }
    case Apply(add, ignore, remove, now, _) =>
      AppliedLists(r, add, ignore, remove, now);
      SelectionIs(r, add, remove);
      forall i | 0 <= i < |Adding(r, add)| ensures ',' !in Adding(r, add)[i] { assert Adding(r, add)[i] in r.detected; }
      forall x ensures PieceOf(x, Adding(r, add)) <==> x in Adding(r, add) { CleanPieces(Adding(r, add), x); }
      forall i | 0 <= i < |r'.detected| ensures ',' !in r'.detected[i] { assert r'.detected[i] in r.detected; }
  }

  /** In particular they are always in step when no upstream answer holds a comma. */
  lemma {:induction false} RunInv(r: Record, actions: seq<Action>, matches: Regex)
    requires Inv(r) && NoComma(r.detected) && PlainAnswers(actions)
    ensures Inv(Run(r, actions, matches)) && NoComma(Run(r, actions, matches).detected)
  {
    if actions != [] {
      RunInv(r, actions[..|actions| - 1], matches);
      PlainStep(Run(r, actions[..|actions| - 1], matches), actions[|actions| - 1], matches);
    }
  }

  /** With commas they can fall out of step: adding a name leaves a waiting piece of it both waiting and in the list. */
  lemma CommaBreaksStep(r: Record, x: string, name: string, now: int)
    requires Inv(r) && x in r.detected && name in r.detected && x != name && Piece(x, name)
    ensures var r' := Applied(r, [name], [], [], now); x in r'.detected && x in Local(r') && !Inv(r')
  {
    assert Clean([name]);
    NormalizeClean([name]);
    NormalizeClean(r.detected);
    SelectionIs(r, [name], []);
    AppliedModels(r, [name], [], [], now);
    AppliedLists(r, [name], [], [], now);
    assert name in Adding(r, [name]);
  }

  /** Such a record is there as soon as both names are detected. */
  lemma CommaExample(x: string, name: string, now: int)
    requires Clean([x, name]) && Piece(x, name)
    ensures var r := Record("", map[], [], [x, name], [], false, 0); Inv(r) && !Inv(Applied(r, [name], [], [], now))
  {
    var r := Record("", map[], [], [x, name], [], false, 0);
    assert Local(r) == [];
    assert [x, name][0] != [x, name][1];
    CommaBreaksStep(r, x, name, now);
  }

  ghost predicate NamesForRemoval(a: Action, x: string) {
    a.Apply? && x in Normalize(a.remove)
  }

  /** An upstream answer offers `x`, or a name with a comma that `x` is a piece of. */
  ghost predicate Offers(a: Action, x: string) {
    a.Check? && a.upstream.Some? && PieceOf(x, Normalize(a.upstream.value))
  }

  ghost predicate Known(r: Record, x: string) {
    x in Local(r) || PieceOf(x, Normalize(r.detected))
  }

  lemma SubsetPieces(a: seq<string>, b: seq<string>, x: string)
    requires PieceOf(x, a) && forall y :: y in a ==> y in b
    ensures PieceOf(x, b)
  {
  }

  lemma CheckModels(r: Record, upstream: seq<string>, allowAutoApply: bool, now: int, matches: Regex, x: string)
    ensures var r' := Checked(r, upstream, allowAutoApply, now, matches);
            && (x in Local(r) ==> x in Local(r'))
            && (Known(r', x) ==> Known(r, x) || PieceOf(x, Normalize(upstream)))
  {
    var r', add := Checked(r, upstream, allowAutoApply, now, matches), ToAdd(r, upstream, matches);
    CheckedIs(r, upstream, allowAutoApply, now, matches);
    NormalizeClean(add);
    if PieceOf(x, add) { SubsetPieces(add, Normalize(upstream), x); }
    assert !PieceOf(x, Normalize([]));
  }

  lemma ApplyModels(r: Record, add: seq<string>, ignore: seq<string>, remove: seq<string>, now: int, x: string)
    requires RemovedOk(r)
    ensures var r' := Applied(r, add, ignore, remove, now);
            && (x in Local(r) && x !in Local(r') ==> x !in r.mapping && x in Normalize(remove))
            && (Known(r', x) ==> Known(r, x))
  {
    var r' := Applied(r, add, ignore, remove, now);
    NormalizeClean(r.removed);
    SelectionIs(r, add, remove);
    AppliedModels(r, add, ignore, remove, now);
    AppliedLists(r, add, ignore, remove, now);
    NormalizeClean(r'.detected);
    if PieceOf(x, Adding(r, add)) { SubsetPieces(Adding(r, add), Normalize(r.detected), x); }
    if PieceOf(x, r'.detected) { SubsetPieces(r'.detected, Normalize(r.detected), x); }
  }

  lemma StepModels(r: Record, a: Action, matches: Regex, x: string)
    requires RemovedOk(r)
    ensures var r' := Step(r, a, matches);
            && RemovedOk(r') && r'.mapping == r.mapping
            && (x in Local(r) && x !in Local(r') ==> x !in r.mapping && NamesForRemoval(a, x))
            && (Known(r', x) ==> Known(r, x) || Offers(a, x))
  {
    match a
    case Check(_, allowAutoApply, now, _, upstream, _) =>
      if upstream.Some? {
        CheckModels(r, upstream.value, allowAutoApply, now, matches, x);
        CheckInv(r, upstream.value, allowAutoApply, now, matches);
        CheckedIs(r, upstream.value, allowAutoApply, now, matches);
      }
    case Apply(add, ignore, remove, now, _) =>
      ApplyModels(r, add, ignore, remove, now, x);
      ApplyKeepsRemovedOk(r, add, ignore, remove, now);
  }

  /**
   Over every run: a model leaves the list only if some application names it for removal, and never when
   it is a redirect source; and a model enters the list only if it, or a name with a comma it is a piece
   of, waited at the start or was offered by an upstream answer of the run.
   */
  lemma {:induction false} RunModels(r: Record, actions: seq<Action>, matches: Regex, x: string)
    requires RemovedOk(r)
    ensures var r' := Run(r, actions, matches);
            && RemovedOk(r') && r'.mapping == r.mapping
            && (x in Local(r) && x !in Local(r') ==>
                  x !in r.mapping && exists i :: 0 <= i < |actions| && NamesForRemoval(actions[i], x))
            && (Known(r', x) ==> Known(r, x) || exists i :: 0 <= i < |actions| && Offers(actions[i], x))
  {
    if actions != [] {
      var n := |actions| - 1;
      var init := actions[..n];
      RunModels(r, init, matches, x);
      StepModels(Run(r, init, matches), actions[n], matches, x);
      assert forall i :: 0 <= i < n ==> actions[i] == init[i];
    }
  }

  // ---------------------------------------------------------------------------
  // Detecting, applying everything, detecting again
  // ---------------------------------------------------------------------------

  lemma HeadIn(models: seq<string>)
    ensures models != [] ==> models[0] in models
  {
  }

  function DetectAndApplyAll(r: Record, upstream: seq<string>, now: int, matches: Regex): Record {
    var d := Checked(r, upstream, false, now, matches);
    Applied(d, Normalize(d.detected), [], Normalize(d.removed), now)
  }

  /** After detecting and applying everything the list holds what it should and no more. */
  lemma SyncedModels(r: Record, upstream: seq<string>, now: int, matches: Regex)
    ensures var r' := DetectAndApplyAll(r, upstream, now, matches);
            var add := ToAdd(r, upstream, matches);
            && r'.detected == [] && r'.removed == [] && r'.mapping == r.mapping
            && (forall x :: x in Local(r') <==>
                  (x in Local(r) && (x in r.mapping || x in Normalize(upstream))) || PieceOf(x, add))
            && (NoComma(add) ==> forall x :: PieceOf(x, add) <==> x in add)
            && (forall x :: x in r'.ignored <==> x in Normalize(r.ignored) && x !in add) && Clean(r'.ignored)
  {
    var d := Checked(r, upstream, false, now, matches);
    var add := ToAdd(r, upstream, matches);
    CheckedIs(r, upstream, false, now, matches);
    NormalizeClean(d.detected);
    NormalizeClean(d.removed);
    SelectionIs(d, d.detected, d.removed);
    AppliedModels(d, d.detected, [], d.removed, now);
    AppliedLists(d, d.detected, [], d.removed, now);
    var r' := DetectAndApplyAll(r, upstream, now, matches);
    HeadIn(r'.detected);
    HeadIn(r'.removed);
    assert Adding(d, d.detected) == add by {
      PickAll(add, (x: string) => x in Normalize(Normalize(d.detected)));
      NormalizeClean(add);
    }
    if NoComma(add) {
      forall x ensures PieceOf(x, add) <==> x in add { CleanPieces(add, x); }
    }
  }

  /** Some entry that ignores `x` is not itself one of the names just added. */
  ghost predicate StillIgnored(r: Record, add: seq<string>, x: string, matches: Regex) {
    exists i :: 0 <= i < |Normalize(r.ignored)| && Normalize(r.ignored)[i] !in add
        && Ignores(Normalize(r.ignored)[i], x, matches)
  }

  lemma IgnoredAfterwards(r: Record, ignored: seq<string>, add: seq<string>, x: string, matches: Regex)
    requires forall y :: y in ignored <==> y in Normalize(r.ignored) && y !in add
    ensures Ignored(ignored, x, matches) <==> StillIgnored(r, add, x, matches)
  {
    var was := Normalize(r.ignored);
    if Ignored(ignored, x, matches) {
      var i :| 0 <= i < |ignored| && Ignores(ignored[i], x, matches);
      assert ignored[i] in was;
      var k :| 0 <= k < |was| && was[k] == ignored[i];
      assert was[k] !in add;
    }
    if StillIgnored(r, add, x, matches) {
      var k :| 0 <= k < |was| && was[k] !in add && Ignores(was[k], x, matches);
      assert was[k] in ignored;
      var i :| 0 <= i < |ignored| && ignored[i] == was[k];
    }
  }

  /**
   If no name to be added holds a comma, a second detection finds nothing to remove. It finds to add exactly
   the names that were ignored only because of entries that have since been added as models, and so left
   the ignore list.
   */
  lemma DetectAgain(r: Record, upstream: seq<string>, now: int, matches: Regex, later: int)
    requires NoComma(ToAdd(r, upstream, matches))
    ensures var r' := DetectAndApplyAll(r, upstream, now, matches);
            var again := Checked(r', upstream, false, later, matches);
            && again.removed == []
            && Local(again) == Local(r')
            && forall x :: x in again.detected <==>
                 IgnoredFirst(r, upstream, matches, x) && !StillIgnored(r, ToAdd(r, upstream, matches), x, matches)
  {
    var r' := DetectAndApplyAll(r, upstream, now, matches);
    var again, add := Checked(r', upstream, false, later, matches), ToAdd(r, upstream, matches);
    SyncedModels(r, upstream, now, matches);
    CheckedIs(r, upstream, false, now, matches);
    CheckedIs(r', upstream, false, later, matches);
    NormalizeClean(r'.ignored);
    HeadIn(again.removed);
    forall x ensures Ignored(r'.ignored, x, matches) <==> StillIgnored(r, add, x, matches) {
      IgnoredAfterwards(r, r'.ignored, add, x, matches);
    }
    forall x | StillIgnored(r, add, x, matches) ensures Ignored(Normalize(r.ignored), x, matches) {
    }
  }

  /** Every upstream name the first detection ignored is ignored by some entry that was not added as a model. */
  ghost predicate AllStillIgnored(r: Record, upstream: seq<string>, matches: Regex) {
    forall x :: IgnoredFirst(r, upstream, matches, x) ==> StillIgnored(r, ToAdd(r, upstream, matches), x, matches)
  }

  /** An upstream name that would be added if it were not ignored. */
  ghost predicate IgnoredFirst(r: Record, upstream: seq<string>, matches: Regex, x: string) {
    && x in Normalize(upstream) && x !in Local(r) && x !in r.mapping.Values
    && Ignored(Normalize(r.ignored), x, matches)
  }

  /** So the second detection finds nothing at all exactly when that holds and no name added holds a comma. */
  lemma DetectAgainFindsNothingIff(r: Record, upstream: seq<string>, now: int, matches: Regex, later: int)
    ensures var again := Checked(DetectAndApplyAll(r, upstream, now, matches), upstream, false, later, matches);
            again.removed == [] && again.detected == [] <==>
              NoComma(ToAdd(r, upstream, matches)) && AllStillIgnored(r, upstream, matches)
  {
    var again := Checked(DetectAndApplyAll(r, upstream, now, matches), upstream, false, later, matches);
    var add := ToAdd(r, upstream, matches);
    if NoComma(add) {
      DetectAgain(r, upstream, now, matches, later);
      HeadIn(again.detected);
    } else {
      var i :| 0 <= i < |add| && ',' in add[i];
      CommaNameComesBack(r, upstream, now, matches, later, add[i]);
    }
  }

  /** In particular when no name added holds a comma or starts with the prefix that makes an entry a pattern. */
  lemma DetectAgainFindsNothing(r: Record, upstream: seq<string>, now: int, matches: Regex, later: int)
    requires NoComma(ToAdd(r, upstream, matches)) && forall x :: x in ToAdd(r, upstream, matches) ==> !IsRegex(x)
    ensures var again := Checked(DetectAndApplyAll(r, upstream, now, matches), upstream, false, later, matches);
            again.removed == [] && again.detected == []
  {
    var add := ToAdd(r, upstream, matches);
    CheckedIs(r, upstream, false, now, matches);
    forall x | IgnoredFirst(r, upstream, matches, x)
      ensures StillIgnored(r, add, x, matches)
    {
      var i :| 0 <= i < |Normalize(r.ignored)| && Ignores(Normalize(r.ignored)[i], x, matches);
      assert Normalize(r.ignored)[i] == x || Normalize(r.ignored)[i] !in add;
    }
    DetectAgainFindsNothingIff(r, upstream, now, matches, later);
  }

  /**
   Otherwise it can find more: with a pattern in the ignore list and an upstream model of that very name,
   adding that model takes the pattern away, and the model it held back turns up next.
   */
  lemma PatternNameGivesWay(pattern: string, b: string, matches: Regex, now: int, later: int)
    requires Clean([pattern, b]) && ',' !in pattern && IsRegex(pattern)
    requires Ignores(pattern, b, matches) && !Ignores(pattern, pattern, matches)
    ensures var r := Record("", map[], [pattern], [], [], false, 0);
            var again := Checked(DetectAndApplyAll(r, [pattern, b], now, matches), [pattern, b], false, later, matches);
            ToAdd(r, [pattern, b], matches) == [pattern] && b in again.detected
  {
    var r := Record("", map[], [pattern], [], [], false, 0);
    PatternIsAdded(r, pattern, b, matches);
    DetectAgain(r, [pattern, b], now, matches, later);
  }

  lemma PatternIsAdded(r: Record, pattern: string, b: string, matches: Regex)
    requires r == Record("", map[], [pattern], [], [], false, 0) && Clean([pattern, b])
    requires Ignores(pattern, b, matches) && !Ignores(pattern, pattern, matches)
    ensures Normalize(r.ignored) == [pattern] && Normalize([pattern, b]) == [pattern, b] && Local(r) == []
    ensures Ignored([pattern], b, matches) && ToAdd(r, [pattern, b], matches) == [pattern]
  {
    NormalizeClean([pattern, b]);
    assert Clean([pattern]) by { assert [pattern, b][0] == pattern; }
    NormalizeClean([pattern]);
    var p := (x: string) => Wanted([], [pattern], map[], matches, x);
    assert [pattern][0] == pattern;
    assert Ignored([pattern], b, matches) && !Ignored([pattern], pattern, matches);
    assert [pattern, b][..1] == [pattern] && [pattern][..0] == [];
    assert Pick([pattern], p) == [pattern];
    assert Pick([pattern, b], p) == [pattern];
  }

  /** A name with a comma is never stored as itself, so it is found again after every round. */
  lemma CommaNameComesBack(r: Record, upstream: seq<string>, now: int, matches: Regex, later: int, x: string)
    requires x in ToAdd(r, upstream, matches) && ',' in x
    ensures var r' := DetectAndApplyAll(r, upstream, now, matches);
            x !in Local(r') && x in Checked(r', upstream, false, later, matches).detected
  {
    var d, r' := Checked(r, upstream, false, now, matches), DetectAndApplyAll(r, upstream, now, matches);
    PendingAddIs(GetModels(r.models), upstream, r.ignored, r.mapping, matches);
    PendingAddIs(GetModels(r'.models), upstream, r'.ignored, r'.mapping, matches);
    LocalHasNoComma(r');
    AppliedLists(d, Normalize(d.detected), [], Normalize(d.removed), now);
    NormalizeClean(r'.ignored);
    NoneIgnored(Normalize(r.ignored), r'.ignored, x, matches);
  }

  lemma NoneIgnored(was: seq<string>, now: seq<string>, x: string, matches: Regex)
    requires !Ignored(was, x, matches) && forall y :: y in now ==> y in was
    ensures !Ignored(now, x, matches)
  {
    forall i | 0 <= i < |now| ensures !Ignores(now[i], x, matches) {
      assert now[i] in was;
      var k :| 0 <= k < |was| && was[k] == now[i];
      assert !Ignores(was[k], x, matches);
    }
  }

  // ---------------------------------------------------------------------------
  // The operations on a stored channel
  // ---------------------------------------------------------------------------

  class Channel {
    var record: Record
    const matches: Regex

    constructor (record: Record, matches: Regex)
      ensures this.record == record && this.matches == matches
    {
      this.record := record;
      this.matches := matches;
    }

    method CheckAndPersist(force: bool, allowAutoApply: bool, now: int, minInterval: int,
        upstream: Option<seq<string>>, stored: bool)
      returns (ok: bool, modelsChanged: bool, autoAdded: nat)
      modifies this
      ensures modelsChanged ==> upstream.Some?
      ensures record == Step(old(record), Check(force, allowAutoApply, now, minInterval, upstream, stored), matches)
      ensures ok <==>
                || (!force && old(record).lastCheck > 0 && now - old(record).lastCheck < minInterval)
                || (stored && upstream.Some?)
      ensures !modelsChanged ==> record.models == old(record).models
      ensures modelsChanged ==>
          autoAdded + |Local(old(record))| == |Merge(Local(old(record)), ToAdd(old(record), upstream.value, matches))|
    {
      modelsChanged, autoAdded := false, 0;
      if !force && record.lastCheck > 0 && now - record.lastCheck < minInterval { return true, false, 0; }
      var next := record.(lastCheck := now);
      if upstream == None {
        if stored { record := next; }
        return false, false, 0;
      }
      var add, remove := CollectPending(GetModels(record.models), upstream.value, record.ignored, record.mapping,
          matches);
      if allowAutoApply && record.autoSync && |add| > 0 {
        var origin := Normalize(GetModels(record.models));
        var merged := MergeModelNames(origin, add);
        if |merged| > |origin| {
          next := next.(models := Join(merged, ','));
          autoAdded, modelsChanged := |merged| - |origin|, true;
        }
        next := next.(detected := []);
      } else {
        next := next.(detected := add);
      }
      next := next.(removed := remove);
      if !stored { return false, false, autoAdded; }
      record := next;
      ok := true;
    }

    method ApplyUpdates(addInput: seq<string>, ignoreInput: seq<string>, removeInput: seq<string>, now: int,
        stored: bool)
      returns (ok: bool, added: seq<string>, removed: seq<string>)
      modifies this
      ensures record == Step(old(record), Apply(addInput, ignoreInput, removeInput, now, stored), matches)
      ensures ok == stored
      ensures ok ==> added == Adding(old(record), addInput) && removed == Removing(old(record), addInput, removeInput)
    {
      var pendingAdd, pendingRemove := Normalize(record.detected), Normalize(record.removed);
      var add, ignore := Intersect(addInput, pendingAdd), Intersect(ignoreInput, pendingAdd);
      var remove := Subtract(Intersect(removeInput, pendingRemove), add);
      var origin := Normalize(GetModels(record.models));
      var next := ApplySelected(origin, add, remove);
      var r := record;
      if origin != next { r := r.(models := Join(next, ',')); }
      var ignored := MergeModelNames(r.ignored, ignore);
      r := r.(ignored := ignored);
      if |add| > 0 { r := r.(ignored := Subtract(r.ignored, add)); }
      r := r.(detected := Subtract(pendingAdd, add + ignore), removed := Subtract(pendingRemove, remove),
          lastCheck := now);
      if !stored { return false, [], []; }
      record := r;
      return true, add, remove;
    }
  }
}
