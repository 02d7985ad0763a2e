/**
 Multi-key channels: the keys of a channel in one text column, and three side maps by position
 (status, disable time, disable reason) that every deletion re-indexes.
 */
module MultiKey {
  import opened Numbers
  import opened Options
  import opened Text

  const ENABLED := 1
  const MANUALLY_DISABLED := 2
  const AUTO_DISABLED := 3

  /** What the database holds for a channel. A missing map and an empty one behave alike. */
  datatype Row = Row(key: string, size: int, status: map<int, int>, time: map<int, int>, reason: map<int, string>)

  /** The elements of a JSON array, as raw text, or None when the text is not one. */
  type JsonArray = string -> Option<seq<string>>

  function JsonKeys(key: string, json: JsonArray): Option<seq<string>> {
    var trimmed := TrimSpace(key);
    if trimmed != [] && trimmed[0] == '[' then json(trimmed) else None
  }

  function GetKeys(key: string, json: JsonArray): seq<string> {
    if key == [] then []
    else if JsonKeys(key, json).Some? then JsonKeys(key, json).value
    else ReadList(key, '\n')
  }

  /**
   Saving a channel: the size is counted again from the key text, and statuses past it are dropped.
   An empty key text is not written, so the text already stored stays and is the one counted.
   */
  function SaveRow(stored: Row, row: Row, json: JsonArray): Row {
    var key := if row.key != [] then row.key else stored.key;
    var parsed := JsonKeys(key, json);
    var keys := if parsed.Some? && parsed.value != [] then parsed.value else ReadList(key, '\n');
    row.(key := key, size := |keys|, status := map i | i in row.status && i < |keys| :: row.status[i])
  }

  function StatusOf(row: Row, i: int): int {
    if i in row.status then row.status[i] else ENABLED
  }

  // ---------------------------------------------------------------------------
  // The actions
  // ---------------------------------------------------------------------------

  datatype Action =
    | Disable(index: int)
    | Enable(index: int)
    | EnableAll
    | DisableAll
    | Delete(index: int)
    | DeleteAutoDisabled
    | AutoUpdate(usingKey: string, status: int, why: string, now: int)
    | Append(newKeys: seq<string>)

  function EnabledAt(row: Row, n: nat): set<int> {
    set i | 0 <= i < n && StatusOf(row, i) == ENABLED
  }

  function AutoDisabledAt(row: Row, n: nat): set<int> {
    set i | 0 <= i < n && StatusOf(row, i) == AUTO_DISABLED
  }

  /** The positions below `n` that are not dropped, in order. */
  function Kept(n: nat, drop: set<int>): seq<nat> {
    if n == 0 then [] else Kept(n - 1, drop) + (if n - 1 in drop then [] else [n - 1])
  }

  function KeysAt(keys: seq<string>, keep: seq<nat>): seq<string>
    requires forall j :: 0 <= j < |keep| ==> keep[j] < |keys|
  {
    seq(|keep|, j requires 0 <= j < |keep| => keys[keep[j]])
  }

  /** The entries of `m` at the kept positions, by new position, without those in `skip`. */
  function Reindexed<V>(m: map<int, V>, keep: seq<nat>, skip: set<int>): map<int, V> {
    if keep == [] then map[]
    else
      var n := |keep| - 1;
      var m' := Reindexed(m, keep[..n], skip);
      if keep[n] in m && keep[n] !in skip then m'[n := m[keep[n]]] else m'
  }

  lemma {:induction false} KeptRange(n: nat, drop: set<int>)
    ensures forall j :: 0 <= j < |Kept(n, drop)| ==> Kept(n, drop)[j] < n && Kept(n, drop)[j] !in drop
    ensures forall j, k :: 0 <= j < k < |Kept(n, drop)| ==> Kept(n, drop)[j] < Kept(n, drop)[k]
    ensures forall i :: 0 <= i < n && i !in drop ==> i in Kept(n, drop)
  {
    if n > 0 { KeptRange(n - 1, drop); }
  }

  lemma {:induction false} ReindexedAt<V>(m: map<int, V>, keep: seq<nat>, skip: set<int>)
    ensures forall j :: j in Reindexed(m, keep, skip) <==> 0 <= j < |keep| && keep[j] in m && keep[j] !in skip
    ensures forall j :: j in Reindexed(m, keep, skip) ==>
        0 <= j < |keep| && keep[j] in m && Reindexed(m, keep, skip)[j] == m[keep[j]]
  {
    if keep != [] { ReindexedAt(m, keep[..|keep| - 1], skip); }
  }

  function IndexOrZero(keys: seq<string>, k: string): nat {
    if keys == [] then 0 else if k in keys then FirstIndex(keys, k) else 0
  }

  function FirstIndex(keys: seq<string>, k: string): (i: nat)
    requires k in keys
    ensures i < |keys| && keys[i] == k && k !in keys[..i]
  {
    if keys[0] == k then 0 else 1 + FirstIndex(keys[1..], k)
  }

  /** The existing keys as the append logic reads them; a broken JSON array counts as no keys. */
  function ExistingKeys(key: string, json: JsonArray): seq<string> {
    var trimmed := TrimSpace(key);
    if trimmed != [] && trimmed[0] == '[' then (if json(trimmed).Some? then json(trimmed).value else [])
    else ReadList(key, '\n')
  }

  /** The keys among `more`, trimmed, that are neither blank nor seen before. */
  function FreshKeys(more: seq<string>, seen: set<string>): seq<string> {
    if more == [] then []
    else
      var k := TrimSpace(more[0]);
      if k == [] || k in seen then FreshKeys(more[1..], seen)
      else [k] + FreshKeys(more[1..], seen + {k})
  }

  function SeenKeys(keys: seq<string>): set<string> {
    set i | 0 <= i < |keys| && TrimSpace(keys[i]) != [] :: TrimSpace(keys[i])
  }

  function RemainingRow(row: Row, keys: seq<string>, keep: seq<nat>, skip: set<int>): Row
    requires forall j :: 0 <= j < |keep| ==> keep[j] < |keys|
  {
    Row(Join(KeysAt(keys, keep), '\n'), |keep|,
        Reindexed(row.status, keep, EnabledAt(row, |keys|)),
        Reindexed(row.time, keep, skip),
        Reindexed(row.reason, keep, skip))
  }

  function DeleteOne(row: Row, i: int, json: JsonArray): Row {
    var keys := GetKeys(row.key, json);
    KeptRange(|keys|, {i});
    if 0 <= i < row.size && Kept(|keys|, {i}) != []
    then SaveRow(row, RemainingRow(row, keys, Kept(|keys|, {i}), {}), json)
    else row
  }

  function DeleteAuto(row: Row, json: JsonArray): Row {
    var keys := GetKeys(row.key, json);
    var drop := AutoDisabledAt(row, |keys|);
    KeptRange(|keys|, drop);
    if drop != {} then SaveRow(row, RemainingRow(row, keys, Kept(|keys|, drop), EnabledAt(row, |keys|)), json) else row
  }

  /** The row after an action; a rejected action leaves it alone. */
  function Act(row: Row, a: Action, json: JsonArray): Row {
    var keys := GetKeys(row.key, json);
    match a
    case Disable(i) =>
      if 0 <= i < row.size then SaveRow(row, row.(status := row.status[i := MANUALLY_DISABLED]), json) else row
    case Enable(i) =>
      if 0 <= i < row.size
      then SaveRow(row, row.(status := row.status - {i}, time := row.time - {i}, reason := row.reason - {i}), json)
      else row
    case EnableAll => SaveRow(row, row.(status := map[], time := map[], reason := map[]), json)
    case DisableAll =>
      if row.size <= 0 || EnabledAt(row, row.size) == {} then row
      else SaveRow(row, row.(status := row.status + map i | i in EnabledAt(row, row.size) :: MANUALLY_DISABLED), json)
    case Delete(i) => DeleteOne(row, i, json)
    case DeleteAutoDisabled => DeleteAuto(row, json)
    case AutoUpdate(k, status, why, now) =>
      var i := IndexOrZero(keys, k);
      if keys == [] then row
      else if status == ENABLED then row.(status := row.status - {i})
      else row.(status := row.status[i := status], time := row.time[i := now], reason := row.reason[i := why])
    case Append(more) =>
      if row.key == [] then row
      else
        var existing := ExistingKeys(row.key, json);
        SaveRow(row, row.(key := Join(existing + FreshKeys(more, SeenKeys(existing)), '\n')), json)
  }

  // ---------------------------------------------------------------------------
  // The view
  // ---------------------------------------------------------------------------

  datatype KeyStatus = KeyStatus(index: int, status: int, disabledTime: int, reason: string, preview: string)

  function Preview(key: string): string {
    if |key| > 10 then key[..10] + "..." else key
  }

  function Show(row: Row, i: int, key: string): KeyStatus {
    var status := StatusOf(row, i);
    if status == ENABLED then KeyStatus(i, status, 0, "", Preview(key))
    else KeyStatus(i, status, LookupOr(row.time, i, 0), LookupOr(row.reason, i, ""), Preview(key))
  }

  function View(row: Row, json: JsonArray): seq<KeyStatus> {
    var keys := GetKeys(row.key, json);
    seq(|keys|, i requires 0 <= i < |keys| => Show(row, i, keys[i]))
  }

  // ---------------------------------------------------------------------------
  // The invariant
  // ---------------------------------------------------------------------------

  /** Every key is one non-empty line. */
  ghost predicate Lines(keys: seq<string>) {
    forall i :: 0 <= i < |keys| ==> keys[i] != [] && '\n' !in keys[i]
  }

  /** The keys survive the text column: taken together they do not look like a JSON array of other keys. */
  ghost predicate Readable(keys: seq<string>, json: JsonArray) {
    keys != [] && Lines(keys) && (JsonKeys(Join(keys, '\n'), json).Some? ==>
        JsonKeys(Join(keys, '\n'), json).value == keys)
  }

  ghost predicate InRange<V>(m: map<int, V>, n: int) {
    forall i :: i in m ==> 0 <= i < n
  }

  ghost predicate Valid(row: Row, json: JsonArray) {
    var keys := GetKeys(row.key, json);
    && keys != [] && Lines(keys) && row.size == |keys|
    && InRange(row.status, row.size) && InRange(row.time, row.size) && InRange(row.reason, row.size)
  }

  /** Keys of one line each come back from the column as they were exactly when they are readable. */
  lemma LinesReadBackIff(keys: seq<string>, json: JsonArray)
    requires keys != [] && Lines(keys)
    ensures Join(keys, '\n') != [] && ReadList(Join(keys, '\n'), '\n') == keys
    ensures GetKeys(Join(keys, '\n'), json) == keys <==> Readable(keys, json)
  {
    JoinEnds(keys, '\n');
    ReadBackIff(keys, '\n');
  }

  /** Saving without touching the key text keeps the keys. */
  lemma SaveKeepsKeys(row: Row, row': Row, json: JsonArray)
    requires Valid(row, json) && row'.key == row.key
    requires InRange(row'.status, row.size)
    ensures SaveRow(row, row', json) == row'.(size := row.size)
  {
  }

  lemma SaveLines(row: Row, row': Row, keys: seq<string>, json: JsonArray)
    requires Readable(keys, json) && row'.key == Join(keys, '\n') && InRange(row'.status, |keys|)
    ensures SaveRow(row, row', json) == row'.(size := |keys|)
    ensures GetKeys(SaveRow(row, row', json).key, json) == keys
  {
    LinesReadBackIff(keys, json);
  }

  // ---------------------------------------------------------------------------
  // Deletions
  // ---------------------------------------------------------------------------

  ghost predicate Selects(keep: seq<nat>, n: nat) {
    && (forall j :: 0 <= j < |keep| ==> keep[j] < n)
    && (forall j, k :: 0 <= j < k < |keep| ==> keep[j] < keep[k])
  }

  /** The view of the kept keys, renumbered. */
  ghost function Renumbered(view: seq<KeyStatus>, keep: seq<nat>): seq<KeyStatus>
    requires Selects(keep, |view|)
  {
    seq(|keep|, j requires 0 <= j < |keep| => view[keep[j]].(index := j))
  }

  lemma RemainingEffect(row: Row, keep: seq<nat>, skip: set<int>, json: JsonArray)
    requires Valid(row, json) && Selects(keep, row.size) && keep != []
    requires skip <= EnabledAt(row, row.size) && Readable(KeysAt(GetKeys(row.key, json), keep), json)
    ensures var keys := GetKeys(row.key, json);
            var row' := SaveRow(row, RemainingRow(row, keys, keep, skip), json);
            && row' == RemainingRow(row, keys, keep, skip)
            && Valid(row', json) && GetKeys(row'.key, json) == KeysAt(keys, keep)
  {
    var keys := GetKeys(row.key, json);
    var row' := RemainingRow(row, keys, keep, skip);
    ReindexedAt(row.status, keep, EnabledAt(row, |keys|));
    ReindexedAt(row.time, keep, skip);
    ReindexedAt(row.reason, keep, skip);
    SaveLines(row, row', KeysAt(keys, keep), json);
  }

  lemma RemainingShows(row: Row, keep: seq<nat>, skip: set<int>, j: nat, json: JsonArray)
    requires Valid(row, json) && Selects(keep, row.size) && skip <= EnabledAt(row, row.size) && j < |keep|
    ensures var keys := GetKeys(row.key, json);
            Show(RemainingRow(row, keys, keep, skip), j, keys[keep[j]])
                == Show(row, keep[j], keys[keep[j]]).(index := j)
  {
    ReindexedAt(row.status, keep, EnabledAt(row, row.size));
    ReindexedAt(row.time, keep, skip);
    ReindexedAt(row.reason, keep, skip);
  }

  lemma RemainingView(row: Row, keep: seq<nat>, skip: set<int>, json: JsonArray)
    requires Valid(row, json) && Selects(keep, row.size) && keep != [] && skip <= EnabledAt(row, row.size)
    requires Readable(KeysAt(GetKeys(row.key, json), keep), json)
    ensures var row' := SaveRow(row, RemainingRow(row, GetKeys(row.key, json), keep, skip), json);
            && Valid(row', json) && GetKeys(row'.key, json) == KeysAt(GetKeys(row.key, json), keep)
            && View(row', json) == Renumbered(View(row, json), keep)
  {
    var keys := GetKeys(row.key, json);
    RemainingEffect(row, keep, skip, json);
    forall j | 0 <= j < |keep|
      ensures Show(RemainingRow(row, keys, keep, skip), j, keys[keep[j]])
          == Show(row, keep[j], keys[keep[j]]).(index := j)
    {
      RemainingShows(row, keep, skip, j, json);
    }
  }

  /** The keys the action is to leave. */
  ghost function KeysAfter(row: Row, a: Action, json: JsonArray): seq<string>
    requires row.size == |GetKeys(row.key, json)|
  {
    var keys := GetKeys(row.key, json);
    match a
    case Delete(i) =>
      KeptRange(row.size, {i});
      if 0 <= i < row.size && row.size > 1 then KeysAt(keys, Kept(row.size, {i})) else keys
    case DeleteAutoDisabled =>
      KeepsTheOthers(row);
      KeysAt(keys, NotAutoDisabled(row))
    case Append(more) => keys + FreshKeys(more, SeenKeys(keys))
    case _ => keys
  }

  /** The keys the action is to leave survive the text column, and appending finds the keys there are. */
  ghost predicate Suits(row: Row, a: Action, json: JsonArray)
    requires row.size == |GetKeys(row.key, json)|
  {
    match a
    case Delete(i) => 0 <= i < row.size && row.size > 1 ==> Readable(KeysAfter(row, a, json), json)
    case DeleteAutoDisabled => AutoDisabledAt(row, row.size) != {} && NotAutoDisabled(row) != [] ==>
        Readable(KeysAfter(row, a, json), json)
    case Append(more) => ExistingKeys(row.key, json) == GetKeys(row.key, json)
        && Readable(KeysAfter(row, a, json), json)
    case _ => true
  }

  lemma DeleteUnfolds(row: Row, i: int, json: JsonArray)
    requires var keys := GetKeys(row.key, json);
             row.size == |keys| && 0 <= i < row.size && Kept(|keys|, {i}) != [] && Selects(Kept(|keys|, {i}), |keys|)
    ensures var keys := GetKeys(row.key, json);
            Act(row, Delete(i), json) == SaveRow(row, RemainingRow(row, keys, Kept(|keys|, {i}), {}), json)
  {
    assert Act(row, Delete(i), json) == DeleteOne(row, i, json);
  }

  /** Deleting one key leaves the view of the others, renumbered; the last key cannot be deleted. */
  lemma DeleteView(row: Row, i: int, json: JsonArray)
    requires Valid(row, json) && 0 <= i < row.size && Suits(row, Delete(i), json)
    ensures Selects(Kept(row.size, {i}), row.size) && |Kept(row.size, {i})| == row.size - 1
    ensures var keep := Kept(row.size, {i}); var row' := Act(row, Delete(i), json);
            if row.size > 1 then
              && Valid(row', json)
              && GetKeys(row'.key, json) == KeysAt(GetKeys(row.key, json), keep)
              && View(row', json) == Renumbered(View(row, json), keep)
            else row' == row
  {
    KeptRange(row.size, {i});
    KeptAllButOne(row.size, i);
    if row.size > 1 { DeleteLeavesView(row, i, Kept(row.size, {i}), json); } else { LastKeyStays(row, i, json); }
  }

  lemma DeleteLeavesView(row: Row, i: int, keep: seq<nat>, json: JsonArray)
    requires Valid(row, json) && 0 <= i < row.size && keep == Kept(row.size, {i}) && keep != []
        && Selects(keep, row.size)
    requires Readable(KeysAt(GetKeys(row.key, json), keep), json)
    ensures var row' := Act(row, Delete(i), json);
            && Valid(row', json)
            && GetKeys(row'.key, json) == KeysAt(GetKeys(row.key, json), keep)
            && View(row', json) == Renumbered(View(row, json), keep)
  {
    DeleteUnfolds(row, i, json);
    RemainingView(row, keep, {}, json);
  }

  lemma LastKeyStays(row: Row, i: int, json: JsonArray)
    requires row.size == |GetKeys(row.key, json)| && 0 <= i < row.size && Kept(row.size, {i}) == []
    ensures Act(row, Delete(i), json) == row
  {
  }

  lemma {:induction false} KeptAllButOne(n: nat, i: int)
    ensures |Kept(n, {i})| == if 0 <= i < n then n - 1 else n
  {
    if n > 0 { KeptAllButOne(n - 1, i); }
  }

  function NotAutoDisabled(row: Row): seq<nat>
    requires row.size >= 0
  {
    Kept(row.size, AutoDisabledAt(row, row.size))
  }

  lemma KeepsTheOthers(row: Row)
    requires row.size >= 0
    ensures Selects(NotAutoDisabled(row), row.size)
    ensures forall i :: 0 <= i < row.size ==> (i in NotAutoDisabled(row) <==> StatusOf(row, i) != AUTO_DISABLED)
    ensures NotAutoDisabled(row) == [] <==> forall i :: 0 <= i < row.size ==> StatusOf(row, i) == AUTO_DISABLED
  {
    var drop := AutoDisabledAt(row, row.size);
    KeptRange(row.size, drop);
    if NotAutoDisabled(row) != [] { assert NotAutoDisabled(row)[0] !in drop; }
  }

  /** Deleting the auto-disabled keys leaves the view of the others, renumbered, when there are others. */
  lemma DeleteAutoDisabledView(row: Row, json: JsonArray)
    requires Valid(row, json) && NotAutoDisabled(row) != [] && Suits(row, DeleteAutoDisabled, json)
    ensures Valid(Act(row, DeleteAutoDisabled, json), json) && Selects(NotAutoDisabled(row), row.size)
    ensures GetKeys(Act(row, DeleteAutoDisabled, json).key, json)
        == KeysAt(GetKeys(row.key, json), NotAutoDisabled(row))
    ensures View(Act(row, DeleteAutoDisabled, json), json) == Renumbered(View(row, json), NotAutoDisabled(row))
  {
    KeepsTheOthers(row);
    if AutoDisabledAt(row, row.size) == {} {
      KeptAll(row.size);
      assert KeysAt(GetKeys(row.key, json), NotAutoDisabled(row)) == GetKeys(row.key, json);
      assert View(row, json) == Renumbered(View(row, json), NotAutoDisabled(row));
    } else {
      RemainingView(row, NotAutoDisabled(row), EnabledAt(row, row.size), json);
    }
  }

  lemma {:induction false} KeptAll(n: nat)
    ensures |Kept(n, {})| == n && forall j :: 0 <= j < n ==> Kept(n, {})[j] == j
  {
    if n > 0 { KeptAll(n - 1); }
  }

  /**
   When every key is auto-disabled, deleting the auto-disabled keys deletes none: the empty key text is
   not written, the old keys stay, and with the side maps emptied they are all enabled again.
   */
  lemma AllAutoDisabledComeBack(row: Row, json: JsonArray)
    requires Valid(row, json) && forall i :: 0 <= i < row.size ==> StatusOf(row, i) == AUTO_DISABLED
    ensures var row' := Act(row, DeleteAutoDisabled, json);
            && Valid(row', json) && row'.key == row.key
            && forall i :: 0 <= i < row.size ==> StatusOf(row', i) == ENABLED
  {
    var keep := NotAutoDisabled(row);
    KeepsTheOthers(row);
    assert 0 in AutoDisabledAt(row, row.size);
    assert KeysAt(GetKeys(row.key, json), keep) == [];
  }

  /** So the deletion is right, when there is something to delete, exactly if some key is not auto-disabled. */
  lemma DeleteAutoDisabledIff(row: Row, json: JsonArray)
    requires Valid(row, json) && AutoDisabledAt(row, row.size) != {} && Suits(row, DeleteAutoDisabled, json)
    ensures Selects(NotAutoDisabled(row), row.size)
    ensures View(Act(row, DeleteAutoDisabled, json), json) == Renumbered(View(row, json), NotAutoDisabled(row))
            <==> exists i :: 0 <= i < row.size && StatusOf(row, i) != AUTO_DISABLED
  {
    KeepsTheOthers(row);
    var keep := NotAutoDisabled(row);
    if forall i :: 0 <= i < row.size ==> StatusOf(row, i) == AUTO_DISABLED {
      AllAutoDisabledComeBack(row, json);
        assert |Renumbered(View(row, json), keep)| < |View(Act(row, DeleteAutoDisabled, json), json)|;
    } else {
      DeleteAutoDisabledView(row, json);
    }
  }

  // ---------------------------------------------------------------------------
  // Blank keys
  // ---------------------------------------------------------------------------

  /**
   For keys of any kind: after deleting key `i` the column reads back as the other keys exactly when their
   text is not empty and, if it is a JSON array, that array has these very elements, and otherwise they are
   storable: none holds a line break and neither the first nor the last is blank.
   */
  lemma DeleteKeepsKeysIff(row: Row, i: int, keep: seq<nat>, others: seq<string>, json: JsonArray)
    requires row.size == |GetKeys(row.key, json)| && 0 <= i < row.size && keep == Kept(row.size, {i}) && keep != []
    requires Selects(keep, row.size) && others == KeysAt(GetKeys(row.key, json), keep)
    ensures var text := Join(others, '\n');
            GetKeys(Act(row, Delete(i), json).key, json) == others <==>
              text != [] && if JsonKeys(text, json).Some? then JsonKeys(text, json).value == others
                  else Storable(others, '\n')
  {
    KeptAllButOne(row.size, i);
    DeleteStores(row, i, keep, others, json);
    ReadBackIff(others, '\n');
  }

  lemma DeleteStores(row: Row, i: int, keep: seq<nat>, others: seq<string>, json: JsonArray)
    requires row.size == |GetKeys(row.key, json)| && 0 <= i < row.size && keep == Kept(row.size, {i}) && keep != []
    requires Selects(keep, row.size) && others == KeysAt(GetKeys(row.key, json), keep)
    ensures Act(row, Delete(i), json) == SaveRow(row, RemainingRow(row, GetKeys(row.key, json), keep, {}), json)
    ensures Act(row, Delete(i), json).key == if Join(others, '\n') != [] then Join(others, '\n') else row.key
  {
    DeleteUnfolds(row, i, json);
    SavedKey(row, RemainingRow(row, GetKeys(row.key, json), keep, {}), json);
  }

  lemma SavedKey(row: Row, row': Row, json: JsonArray)
    ensures SaveRow(row, row', json).key == if row'.key != [] then row'.key else row.key
  {
  }

  lemma ReadThreeLines()
    ensures ReadList("a\n\nb", '\n') == ["a", "", "b"] && TrimSpace("a\n\nb") == "a\n\nb"
  {
    SplitOnce("a", "\nb", '\n');
    SplitOnce("", "b", '\n');
    SplitOnce("b", "", '\n');
    assert "a" + "\n" + "\nb" == "a\n\nb";
    assert "" + "\n" + "b" == "\nb";
  }

  lemma ReadTwoLines()
    ensures ReadList("\nb", '\n') == ["b"] && TrimSpace("\nb") == "b"
  {
    assert "\nb"[1..] == "b";
    SplitOnce("b", "", '\n');
  }

  /** Deleting the first of the keys "a", "" and "b" loses the blank one too, and b takes over its status. */
  lemma BlankKeyShiftsStatuses(json: JsonArray)
    ensures var row := Row("a\n\nb", 3, map[1 := AUTO_DISABLED], map[], map[]);
            var row' := Act(row, Delete(0), json);
            && GetKeys(row.key, json) == ["a", "", "b"] && StatusOf(row, 2) == ENABLED
            && GetKeys(row'.key, json) == ["b"] && StatusOf(row', 0) == AUTO_DISABLED
  {
    var row := Row("a\n\nb", 3, map[1 := AUTO_DISABLED], map[], map[]);
    ReadThreeLines();
    ReadTwoLines();
    var keep := Kept(3, {0});
    assert Kept(1, {0}) == [] && Kept(2, {0}) == [1] && keep == [1, 2];
    var others := KeysAt(GetKeys(row.key, json), keep);
    assert others == ["", "b"];
    assert Join(["b"], '\n') == "b" && Join(others, '\n') == "\nb";
    DeleteStores(row, 0, keep, others, json);
    BlankKeyStatus(row, keep);
  }

  lemma BlankKeyStatus(row: Row, keep: seq<nat>)
    requires row.status == map[1 := AUTO_DISABLED] && keep == [1, 2]
    ensures Reindexed(row.status, keep, EnabledAt(row, 3)) == map[0 := AUTO_DISABLED]
  {
    var on := EnabledAt(row, 3);
    ReindexedAt(row.status, keep, on);
    assert 1 !in on;
    var r := Reindexed(row.status, keep, on);
    assert 0 in r && r[0] == AUTO_DISABLED;
    assert forall j :: j in r ==> j == 0;
  }

  // ---------------------------------------------------------------------------
  // Appending
  // ---------------------------------------------------------------------------

  /**
   Appending reads the keys there are as everything else does, except when the text begins with a bracket
   but is no JSON array: then it finds none.
   */
  lemma ExistingAreKeysIff(row: Row, json: JsonArray)
    requires Valid(row, json)
    ensures var trimmed := TrimSpace(row.key); var broken := trimmed != [] && trimmed[0] == '[' && json(trimmed).None?;
            && (ExistingKeys(row.key, json) == GetKeys(row.key, json) <==> !broken)
            && (broken ==> ExistingKeys(row.key, json) == [])
  {
  }

  /** The keys added are those named that are not blank and not there yet, each once. */
  lemma {:induction false} FreshKeysAre(more: seq<string>, seen: set<string>)
    ensures var added := FreshKeys(more, seen);
            && (forall k :: k in added ==> k !in seen && exists i :: 0 <= i < |more| && k == TrimSpace(more[i]))
            && (forall i :: 0 <= i < |more| && TrimSpace(more[i]) != [] ==>
                TrimSpace(more[i]) in seen || TrimSpace(more[i]) in added)
            && (forall i, j :: 0 <= i < j < |added| ==> added[i] != added[j])
  {
    if more != [] {
      var k, rest := TrimSpace(more[0]), more[1..];
      var seen' := if k == [] then seen else seen + {k};
      FreshKeysAre(rest, seen');
      var added, added' := FreshKeys(more, seen), FreshKeys(rest, seen');
      assert added == if k == [] || k in seen then added' else [k] + added' by {
        if k in seen { assert seen + {k} == seen; }
      }
      forall x | x in added' ensures exists i :: 0 <= i < |more| && x == TrimSpace(more[i]) {
        var i :| 0 <= i < |rest| && x == TrimSpace(rest[i]);
        assert more[i + 1] == rest[i];
      }
      forall i | 0 < i < |more| && TrimSpace(more[i]) != []
        ensures TrimSpace(more[i]) in seen || TrimSpace(more[i]) in added
      {
        assert more[i] == rest[i - 1];
      }
    }
  }

  /** Appending leaves the old keys where they were, as they were, and the new ones start out enabled. */
  lemma AppendEffect(row: Row, more: seq<string>, json: JsonArray)
    requires Valid(row, json) && Suits(row, Append(more), json)
    ensures var row' := Act(row, Append(more), json);
            && Valid(row', json) && GetKeys(row'.key, json) == KeysAfter(row, Append(more), json)
            && row'.status == row.status && row'.time == row.time && row'.reason == row.reason
  {
    var all := KeysAfter(row, Append(more), json);
    SaveLines(row, row.(key := Join(all, '\n')), all, json);
  }

  /** Where appending finds no keys, the keys there are get lost: only those named now are left. */
  lemma AppendDropsKeys(row: Row, more: seq<string>, json: JsonArray)
    requires Valid(row, json) && TrimSpace(row.key) != [] && TrimSpace(row.key)[0] == '['
        && json(TrimSpace(row.key)).None?
    requires Readable(FreshKeys(more, {}), json)
    ensures GetKeys(Act(row, Append(more), json).key, json) == FreshKeys(more, {})
  {
    var left := FreshKeys(more, {});
    ExistingAreKeysIff(row, json);
    assert SeenKeys([]) == {};
    AppendStores(row, more, [], left, json);
    LinesReadBackIff(left, json);
  }

  lemma AppendStores(row: Row, more: seq<string>, existing: seq<string>, all: seq<string>, json: JsonArray)
    requires row.key != [] && existing == ExistingKeys(row.key, json)
        && all == existing + FreshKeys(more, SeenKeys(existing))
    requires Join(all, '\n') != []
    ensures Act(row, Append(more), json).key == Join(all, '\n')
  {
    SavedKey(row, row.(key := Join(all, '\n')), json);
  }

  /** A key that makes any list it begins readable: it does not begin like a JSON array, or with a blank. */
  predicate Plain(k: string) {
    k != [] && '\n' !in k && k[0] != '[' && k[0] !in SPACES
  }

  ghost predicate AllPlain(keys: seq<string>) {
    forall i :: 0 <= i < |keys| ==> Plain(keys[i])
  }

  lemma {:induction false} TrimKeepsHead(s: string, cut: set<char>)
    requires s != [] && s[0] !in cut
    ensures Trim(s, cut) != [] && Trim(s, cut)[0] == s[0]
    decreases |s|
  {
    if s[|s| - 1] in cut { TrimKeepsHead(s[..|s| - 1], cut); }
  }

  lemma {:induction false} TrimMore(s: string, cut: set<char>, more: set<char>)
    requires cut <= more && Trim(s, cut) != [] && Trim(s, cut)[0] !in more
    ensures Trim(s, more) != [] && Trim(s, more)[0] == Trim(s, cut)[0]
    decreases |s|
  {
    if s[0] in cut {
      TrimMore(s[1..], cut, more);
    } else {
      TrimKeepsHead(s, cut);
      TrimKeepsHead(s, more);
    }
  }

  lemma PlainIsReadable(keys: seq<string>, json: JsonArray)
    requires keys != [] && Lines(keys) && Plain(keys[0])
    ensures Readable(keys, json) && JsonKeys(Join(keys, '\n'), json) == None
  {
    JoinEnds(keys, '\n');
    TrimKeepsHead(Join(keys, '\n'), SPACES);
  }

  lemma PlainAreFound(row: Row, json: JsonArray)
    requires Valid(row, json) && Plain(GetKeys(row.key, json)[0])
    ensures ExistingKeys(row.key, json) == GetKeys(row.key, json)
  {
    var keys := GetKeys(row.key, json);
    ExistingAreKeysIff(row, json);
    if JsonKeys(row.key, json) == None {
      var t := Trim(row.key, {'\n'});
      SplitEnds(t, '\n');
      assert keys[0][0] == t[0];
      TrimMore(row.key, {'\n'}, SPACES);
    }
  }

  ghost predicate Appendable(a: Action) {
    a.Append? ==> forall i :: 0 <= i < |a.newKeys| ==> TrimSpace(a.newKeys[i]) == [] || Plain(TrimSpace(a.newKeys[i]))
  }

  lemma FreshArePlain(more: seq<string>, seen: set<string>)
    requires Appendable(Append(more))
    ensures AllPlain(FreshKeys(more, seen))
  {
    FreshKeysAre(more, seen);
    var added := FreshKeys(more, seen);
    forall i | 0 <= i < |added| ensures Plain(added[i]) {
      assert added[i] in added;
      FreshIsNotBlank(more, seen, i);
    }
  }

  /** With plain keys every action suits, and what it leaves is plain again. */
  lemma PlainSuits(row: Row, a: Action, json: JsonArray)
    requires Valid(row, json) && AllPlain(GetKeys(row.key, json)) && Appendable(a)
    ensures Suits(row, a, json) && AllPlain(KeysAfter(row, a, json))
  {
    var keys, all := GetKeys(row.key, json), KeysAfter(row, a, json);
    if a.Append? {
      FreshArePlain(a.newKeys, SeenKeys(keys));
      PlainAreFound(row, json);
    }
    if a.Delete? {
      KeptRange(row.size, {a.index});
      KeptAllButOne(row.size, a.index);
    }
    if a.DeleteAutoDisabled? { KeepsTheOthers(row); }
    forall i | 0 <= i < |all| ensures Plain(all[i]) { assert !a.Append? ==> all[i] in keys; }
    if all != [] { PlainIsReadable(all, json); }
  }

  lemma {:induction false} FreshIsNotBlank(more: seq<string>, seen: set<string>, i: nat)
    requires i < |FreshKeys(more, seen)|
    ensures FreshKeys(more, seen)[i] != []
  {
    var k := TrimSpace(more[0]);
    if k == [] || k in seen {
      FreshIsNotBlank(more[1..], seen, i);
    } else if i > 0 {
      FreshIsNotBlank(more[1..], seen + {k}, i - 1);
    }
  }

  // ---------------------------------------------------------------------------
  // Following one key through a run
  // ---------------------------------------------------------------------------

  /** The action is about key `i` itself. Deleting when all are auto-disabled re-enables them all. */
  ghost predicate Affects(row: Row, a: Action, json: JsonArray, i: nat)
    requires row.size >= 0
  {
    match a
    case Disable(k) => i == k
    case Enable(k) => i == k
    case EnableAll => true
    case DisableAll => StatusOf(row, i) == ENABLED
    case Delete(_) => false
    case DeleteAutoDisabled => NotAutoDisabled(row) == []
    case AutoUpdate(k, _, _, _) => i == IndexOrZero(GetKeys(row.key, json), k)
    case Append(_) => false
  }

  function PositionIn(keep: seq<nat>, i: nat): Option<nat> {
    if keep == [] then None
    else if keep[|keep| - 1] == i then Some(|keep| - 1)
    else PositionIn(keep[..|keep| - 1], i)
  }

  lemma {:induction false} PositionIs(keep: seq<nat>, i: nat)
    ensures PositionIn(keep, i).Some? <==> i in keep
    ensures PositionIn(keep, i).Some? ==> PositionIn(keep, i).value < |keep| && keep[PositionIn(keep, i).value] == i
  {
    if keep != [] { PositionIs(keep[..|keep| - 1], i); }
  }

  /** Where key `i` is after the action, or None when the action deletes it. */
  ghost function Moved(row: Row, a: Action, i: nat): Option<nat>
    requires row.size >= 0
  {
    match a
    case Delete(k) => if 0 <= k < row.size && row.size > 1 then PositionIn(Kept(row.size, {k}), i) else Some(i)
    case DeleteAutoDisabled => if NotAutoDisabled(row) == [] then Some(i) else PositionIn(NotAutoDisabled(row), i)
    case _ => Some(i)
  }

  /** What an action other than a deletion or an append changes in the side maps. */
  function Set(row: Row, a: Action, json: JsonArray): Row {
    match a
    case Disable(i) => if 0 <= i < row.size then row.(status := row.status[i := MANUALLY_DISABLED]) else row
    case Enable(i) =>
      if 0 <= i < row.size then row.(status := row.status - {i}, time := row.time - {i}, reason := row.reason - {i})
          else row
    case EnableAll => row.(status := map[], time := map[], reason := map[])
    case DisableAll =>
      if row.size <= 0 then row
      else row.(status := row.status + map i | i in EnabledAt(row, row.size) :: MANUALLY_DISABLED)
    case AutoUpdate(k, status, why, now) =>
      var i := IndexOrZero(GetKeys(row.key, json), k);
      if status == ENABLED then row.(status := row.status - {i})
      else row.(status := row.status[i := status], time := row.time[i := now], reason := row.reason[i := why])
    case _ => row
  }

  lemma SetInRange(row: Row, a: Action, json: JsonArray)
    requires Valid(row, json)
    ensures var row' := Set(row, a, json);
            row'.key == row.key && row'.size == row.size
            && InRange(row'.status, row.size) && InRange(row'.time, row.size) && InRange(row'.reason, row.size)
  {
  }

  lemma ActIsSet(row: Row, a: Action, json: JsonArray)
    requires Valid(row, json) && !a.Delete? && !a.DeleteAutoDisabled? && !a.Append?
    ensures Act(row, a, json) == Set(row, a, json)
  {
    SetInRange(row, a, json);
    SaveKeepsKeys(row, Set(row, a, json), json);
    if a.DisableAll? && EnabledAt(row, row.size) == {} {
      assert Set(row, a, json).status == row.status;
    }
  }

  lemma SetKeepsOthers(row: Row, a: Action, json: JsonArray, i: nat, key: string)
    requires Valid(row, json) && i < row.size && !Affects(row, a, json, i)
    ensures Show(Set(row, a, json), i, key) == Show(row, i, key)
  {
  }

  /** Actions other than deletions and appends leave the key text alone, and the keys they are not about. */
  lemma SettingKeepsOthers(row: Row, a: Action, json: JsonArray, i: nat)
    requires Valid(row, json) && i < row.size && !a.Delete? && !a.DeleteAutoDisabled? && !a.Append?
    ensures var row' := Act(row, a, json);
            && Valid(row', json) && row'.key == row.key
            && (!Affects(row, a, json, i) ==>
                  Show(row', i, GetKeys(row.key, json)[i]) == Show(row, i, GetKeys(row.key, json)[i]))
  {
    ActIsSet(row, a, json);
    SetInRange(row, a, json);
    if !Affects(row, a, json, i) { SetKeepsOthers(row, a, json, i, GetKeys(row.key, json)[i]); }
  }

  /** Where the action suits, the row stays valid and holds the keys the action is to leave; deleting all leaves all. */
  lemma ActKeepsValid(row: Row, a: Action, json: JsonArray)
    requires Valid(row, json) && Suits(row, a, json)
    ensures Valid(Act(row, a, json), json)
    ensures GetKeys(Act(row, a, json).key, json) ==
            if KeysAfter(row, a, json) == [] then GetKeys(row.key, json) else KeysAfter(row, a, json)
  {
    match a
    case Delete(k) => if 0 <= k < row.size { DeleteView(row, k, json); }
    case DeleteAutoDisabled =>
      KeepsTheOthers(row);
      if NotAutoDisabled(row) == [] { AllAutoDisabledComeBack(row, json); } else { DeleteAutoDisabledView(row, json); }
    case Append(more) => AppendEffect(row, more, json);
    case _ => SettingKeepsOthers(row, a, json, 0);
  }

  /** The key at position `i` and what the view says of it, however it is numbered. */
  ghost function Seen(row: Row, json: JsonArray, i: nat): (string, KeyStatus)
    requires i < |View(row, json)|
  {
    (GetKeys(row.key, json)[i], View(row, json)[i].(index := 0))
  }

  lemma DeleteKeepsKey(row: Row, k: int, json: JsonArray, i: nat)
    requires Valid(row, json) && i < row.size && 0 <= k < row.size && row.size > 1 && Suits(row, Delete(k), json)
    requires PositionIn(Kept(row.size, {k}), i).Some?
    ensures var row' := Act(row, Delete(k), json); var j := PositionIn(Kept(row.size, {k}), i).value;
            Valid(row', json) && j < row'.size && Seen(row', json, j) == Seen(row, json, i)
  {
    DeleteView(row, k, json);
    PositionIs(Kept(row.size, {k}), i);
  }

  lemma DeleteAutoDisabledKeepsKey(row: Row, json: JsonArray, i: nat)
    requires Valid(row, json) && i < row.size && Suits(row, DeleteAutoDisabled, json)
    requires NotAutoDisabled(row) != [] && PositionIn(NotAutoDisabled(row), i).Some?
    ensures var row' := Act(row, DeleteAutoDisabled, json); var j := PositionIn(NotAutoDisabled(row), i).value;
            Valid(row', json) && j < row'.size && Seen(row', json, j) == Seen(row, json, i)
  {
    DeleteAutoDisabledView(row, json);
    PositionIs(NotAutoDisabled(row), i);
  }

  /** A key the action is not about keeps its text, status, time and reason, wherever it moves to. */
  lemma KeyKeepsItsState(row: Row, a: Action, json: JsonArray, i: nat)
    requires Valid(row, json) && Suits(row, a, json) && i < row.size && !Affects(row, a, json, i)
        && Moved(row, a, i).Some?
    ensures var row' := Act(row, a, json); var j := Moved(row, a, i).value;
            && Valid(row', json) && j < row'.size
            && Seen(row', json, j) == Seen(row, json, i)
  {
    match a
    case Delete(k) =>
      if 0 <= k < row.size && row.size > 1 {
        DeleteKeepsKey(row, k, json, i);
      } else if 0 <= k < row.size {
        DeleteView(row, k, json);
      }
    case DeleteAutoDisabled => DeleteAutoDisabledKeepsKey(row, json, i);
    case Append(more) => AppendEffect(row, more, json);
    case _ => SettingKeepsOthers(row, a, json, i);
  }

  lemma PositionsKeepOrder(n: nat, drop: set<int>, i: nat, k: nat)
    requires i < k && PositionIn(Kept(n, drop), i).Some? && PositionIn(Kept(n, drop), k).Some?
    ensures PositionIn(Kept(n, drop), i).value < PositionIn(Kept(n, drop), k).value
  {
    KeptRange(n, drop);
    PositionIs(Kept(n, drop), i);
    PositionIs(Kept(n, drop), k);
  }

  /** Keys that stay keep their order. */
  lemma MovedKeepsOrder(row: Row, a: Action, i: nat, k: nat)
    requires row.size >= 0 && i < k < row.size && Moved(row, a, i).Some? && Moved(row, a, k).Some?
    ensures Moved(row, a, i).value < Moved(row, a, k).value
  {
    match a
    case Delete(d) => if 0 <= d < row.size && row.size > 1 { PositionsKeepOrder(row.size, {d}, i, k); }
    case DeleteAutoDisabled =>
      if NotAutoDisabled(row) != [] { PositionsKeepOrder(row.size, AutoDisabledAt(row, row.size), i, k); }
    case _ =>
  }

  function Run(row: Row, actions: seq<Action>, json: JsonArray): Row
    decreases |actions|
  {
    if actions == [] then row else Run(Act(row, actions[0], json), actions[1..], json)
  }

  /** Every action of the run suits where it comes. */
  ghost predicate AllSuit(row: Row, actions: seq<Action>, json: JsonArray)
    decreases |actions|
  {
    actions == [] ||
    (row.size == |GetKeys(row.key, json)| && Suits(row, actions[0], json)
        && AllSuit(Act(row, actions[0], json), actions[1..], json))
  }

  /** With plain keys that holds of every run. */
  lemma {:induction false} PlainRunsSuit(row: Row, actions: seq<Action>, json: JsonArray)
    requires Valid(row, json) && AllPlain(GetKeys(row.key, json)) && forall k :: 0 <= k < |actions| ==>
        Appendable(actions[k])
    ensures AllSuit(row, actions, json)
    decreases |actions|
  {
    if actions != [] {
      PlainSuits(row, actions[0], json);
      ActKeepsValid(row, actions[0], json);
      PlainRunsSuit(Act(row, actions[0], json), actions[1..], json);
    }
  }

  /** Where key `i` ends up, or None when the run deletes it or acts on it. */
  ghost function Follow(row: Row, actions: seq<Action>, json: JsonArray, i: nat): Option<nat>
    decreases |actions|
  {
    if actions == [] then Some(i)
    else if row.size < 0 || Affects(row, actions[0], json, i) || Moved(row, actions[0], i) == None then None
    else Follow(Act(row, actions[0], json), actions[1..], json, Moved(row, actions[0], i).value)
  }

  /**
   Over every run of actions the row stays valid: the size is the number of keys and no side map points
   past them. And a key that no action of the run is about ends up with the text, status, time and
   reason it began with.
   */
  lemma {:induction false} RunsKeepKeys(row: Row, actions: seq<Action>, json: JsonArray, i: nat)
    requires Valid(row, json) && i < row.size && AllSuit(row, actions, json)
    ensures var row' := Run(row, actions, json); var j := Follow(row, actions, json, i);
            && Valid(row', json)
            && (j.Some? ==> j.value < row'.size && Seen(row', json, j.value) == Seen(row, json, i))
    decreases |actions|
  {
    if actions != [] {
      var a, row1 := actions[0], Act(row, actions[0], json);
      ActKeepsValid(row, a, json);
      if Affects(row, a, json, i) || Moved(row, a, i) == None {
        RunsKeepKeys(row1, actions[1..], json, 0);
      } else {
        KeyKeepsItsState(row, a, json, i);
        RunsKeepKeys(row1, actions[1..], json, Moved(row, a, i).value);
      }
    }
  }

  /** Where key `i` ends up, whatever is done to its status, or None when the run deletes it. */
  ghost function Track(row: Row, actions: seq<Action>, json: JsonArray, i: nat): Option<nat>
    decreases |actions|
  {
    if actions == [] then Some(i)
    else if row.size < 0 || Moved(row, actions[0], i) == None then None
    else Track(Act(row, actions[0], json), actions[1..], json, Moved(row, actions[0], i).value)
  }

  lemma KeyMoves(row: Row, a: Action, json: JsonArray, i: nat)
    requires Valid(row, json) && Suits(row, a, json) && i < row.size && Moved(row, a, i).Some?
    ensures var row', j := Act(row, a, json), Moved(row, a, i).value;
            && Valid(row', json) && j < row'.size && GetKeys(row'.key, json)[j] == GetKeys(row.key, json)[i]
  {
    ActKeepsValid(row, a, json);
    if a.DeleteAutoDisabled? { KeepsTheOthers(row); }
    if Affects(row, a, json, i) {
      assert Moved(row, a, i).value == i && KeysAfter(row, a, json) in {[], GetKeys(row.key, json)};
    } else {
      KeyKeepsItsState(row, a, json, i);
    }
  }

  /**
   Over every run, a key that is not deleted keeps its text, and of two such keys the one that came first
   still does, whatever was done to their statuses on the way.
   */
  lemma {:induction false} SurvivorsKeepOrder(row: Row, actions: seq<Action>, json: JsonArray, i: nat, k: nat)
    requires Valid(row, json) && AllSuit(row, actions, json) && i < k < row.size
    requires Track(row, actions, json, i).Some? && Track(row, actions, json, k).Some?
    ensures var row', a, b := Run(row, actions, json), Track(row, actions, json, i).value,
        Track(row, actions, json, k).value;
            && a < b < row'.size == |GetKeys(row'.key, json)|
            && GetKeys(row'.key, json)[a] == GetKeys(row.key, json)[i]
            && GetKeys(row'.key, json)[b] == GetKeys(row.key, json)[k]
    decreases |actions|
  {
    if actions != [] {
      var a := actions[0];
      KeyMoves(row, a, json, i);
      KeyMoves(row, a, json, k);
      MovedKeepsOrder(row, a, i, k);
      SurvivorsKeepOrder(Act(row, a, json), actions[1..], json, Moved(row, a, i).value, Moved(row, a, k).value);
    }
  }

  // ---------------------------------------------------------------------------
  // Saving a stale copy
  // ---------------------------------------------------------------------------

  /** The update of a failing key saves everything but the key text, from a copy loaded before. */
  function SaveInfo(stored: Row, copy: Row): Row {
    copy.(key := stored.key)
  }

  /** If keys were deleted or added in between, the row is no longer valid: it stays so exactly when the sizes agree. */
  lemma StaleInfoIff(stored: Row, copy: Row, json: JsonArray)
    requires Valid(stored, json) && Valid(copy, json)
    ensures Valid(SaveInfo(stored, copy), json) <==> stored.size == copy.size
  {
  }

  lemma DeleteMeanwhile(row: Row, i: int, usingKey: string, status: int, why: string, now: int, json: JsonArray)
    requires Valid(row, json) && row.size > 1 && 0 <= i < row.size && Suits(row, Delete(i), json)
    ensures var stored, copy := Act(row, Delete(i), json), Act(row, AutoUpdate(usingKey, status, why, now), json);
            Valid(stored, json) && Valid(copy, json) && !Valid(SaveInfo(stored, copy), json)
  {
    var stored, copy := Act(row, Delete(i), json), Act(row, AutoUpdate(usingKey, status, why, now), json);
    DeleteView(row, i, json);
    ActKeepsValid(row, AutoUpdate(usingKey, status, why, now), json);
    StaleInfoIff(stored, copy, json);
  }

  /** What each setting action does to the keys it is about. */
  lemma SettingsTakeEffect(row: Row, json: JsonArray, i: nat)
    requires Valid(row, json) && i < row.size
    ensures var r := Act(row, Disable(i), json);
            StatusOf(r, i) == MANUALLY_DISABLED && r.time == row.time && r.reason == row.reason
    ensures View(Act(row, Enable(i), json), json)[i].status == ENABLED
    ensures forall k :: 0 <= k < row.size ==> StatusOf(Act(row, EnableAll, json), k) == ENABLED
    ensures forall k :: 0 <= k < row.size ==>
              StatusOf(Act(row, DisableAll, json), k) == if StatusOf(row, k) == ENABLED then MANUALLY_DISABLED
                  else StatusOf(row, k)
  {
    SettingKeepsOthers(row, Enable(i), json, i);
    SaveKeepsKeys(row, row.(status := row.status[i := MANUALLY_DISABLED]), json);
    DisableAllTakesEffect(row, json);
  }

  lemma DisableAllTakesEffect(row: Row, json: JsonArray)
    requires Valid(row, json)
    ensures forall k :: 0 <= k < row.size ==>
              StatusOf(Act(row, DisableAll, json), k) == if StatusOf(row, k) == ENABLED then MANUALLY_DISABLED
                  else StatusOf(row, k)
  {
    var on := EnabledAt(row, row.size);
    SaveKeepsKeys(row, row.(status := row.status + map k | k in on :: MANUALLY_DISABLED), json);
    assert forall k :: 0 <= k < row.size ==> (k in on <==> StatusOf(row, k) == ENABLED);
  }

  // ---------------------------------------------------------------------------
  // Pages of the view
  // ---------------------------------------------------------------------------

  function TotalPages(total: nat, pageSize: nat): nat
    requires pageSize > 0
  {
    var pages := (total + pageSize - 1) / pageSize;
    if pages == 0 then 1 else pages
  }

  /** Page `page`, counted from 1, of a list; past the end there is nothing. */
  function PageOf<T>(list: seq<T>, page: nat, pageSize: nat): seq<T>
    requires page > 0 && pageSize > 0
  {
    var first := (page - 1) * pageSize;
    var last := if first + pageSize > |list| then |list| else first + pageSize;
    if first < |list| then list[first..last] else []
  }

  /** Every element is on exactly one page, in order, and no page up to the last one is left out. */
  lemma PagesCover<T>(list: seq<T>, pageSize: nat, i: nat)
    requires pageSize > 0 && i < |list|
    ensures var page := i / pageSize + 1;
            && 1 <= page <= TotalPages(|list|, pageSize)
            && i % pageSize < |PageOf(list, page, pageSize)| && PageOf(list, page, pageSize)[i % pageSize] == list[i]
    ensures (TotalPages(|list|, pageSize) - 1) * pageSize < |list| <= TotalPages(|list|, pageSize) * pageSize
  {
    var page := i / pageSize + 1;
    assert i == (page - 1) * pageSize + i % pageSize;
    var n := |list| + pageSize - 1;
    assert n == n / pageSize * pageSize + n % pageSize;
    assert page <= n / pageSize by {
      if page > n / pageSize {
        ProductOrder(n / pageSize, page - 1, pageSize);
      }
    }
  }
}
