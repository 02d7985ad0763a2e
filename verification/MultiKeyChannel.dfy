/** The channel object itself: the loops of the key management actions, against their specification. */
module MultiKeyChannels {
  import opened Numbers
  import opened Options
  import opened Text
  import opened MultiKey

  datatype StatusPage = StatusPage(
    keys: seq<KeyStatus>, total: nat, page: nat, pageSize: nat, totalPages: nat,
    enabledCount: nat, manualDisabledCount: nat, autoDisabledCount: nat)

  function WithStatus(view: seq<KeyStatus>, status: int): seq<KeyStatus> {
    if view == [] then []
    else WithStatus(view[..|view| - 1], status) + (if view[|view| - 1].status == status then [view[|view| - 1]] else [])
  }

  lemma ReindexedSnoc<V>(m: map<int, V>, keep: seq<nat>, i: nat, skip: set<int>)
    ensures var r := Reindexed(m, keep, skip);
            Reindexed(m, keep + [i], skip) == if i in m && i !in skip then r[|keep| := m[i]] else r
  {
    assert (keep + [i])[..|keep|] == keep;
  }

  lemma KeysAtSnoc(keys: seq<string>, keep: seq<nat>, i: nat)
    requires i < |keys| && forall j :: 0 <= j < |keep| ==> keep[j] < i
    ensures KeysAt(keys, keep + [i]) == KeysAt(keys, keep) + [keys[i]]
  {
  }

  /** The loop that drops one key and renumbers what belongs to the others. */
  method KeysWithout(row: Row, keys: seq<string>, index: int)
    returns (remainingKeys: seq<string>, newStatus: map<int, int>, newTime: map<int, int>, newReason: map<int, string>)
    ensures forall j :: 0 <= j < |Kept(|keys|, {index})| ==> Kept(|keys|, {index})[j] < |keys|
    ensures Row(Join(remainingKeys, '\n'), |remainingKeys|, newStatus, newTime, newReason)
            == RemainingRow(row, keys, Kept(|keys|, {index}), {})
    ensures |remainingKeys| == |Kept(|keys|, {index})|
  {
    remainingKeys, newStatus, newTime, newReason := [], map[], map[], map[];
    var newIndex := 0;
    ghost var on, keep := EnabledAt(row, |keys|), [];
    for i := 0 to |keys|
      invariant keep == Kept(i, {index}) && newIndex == |keep|
      invariant forall j :: 0 <= j < |keep| ==> keep[j] < i
      invariant remainingKeys == KeysAt(keys, keep)
      invariant newStatus == Reindexed(row.status, keep, on)
      invariant newTime == Reindexed(row.time, keep, {})
      invariant newReason == Reindexed(row.reason, keep, {})
    {
      if i == index { continue; }
      ReindexedSnoc(row.status, keep, i, on);
      ReindexedSnoc(row.time, keep, i, {});
      ReindexedSnoc(row.reason, keep, i, {});
      KeysAtSnoc(keys, keep, i);
      remainingKeys := remainingKeys + [keys[i]];
      if i in row.status && row.status[i] != ENABLED { newStatus := newStatus[newIndex := row.status[i]]; }
      if i in row.time { newTime := newTime[newIndex := row.time[i]]; }
      if i in row.reason { newReason := newReason[newIndex := row.reason[i]]; }
      newIndex, keep := newIndex + 1, keep + [i];
    }
  }

  /** The loop that drops the auto-disabled keys and renumbers what belongs to the others. */
  method KeysNotAutoDisabled(row: Row, keys: seq<string>)
    returns (remainingKeys: seq<string>, newStatus: map<int, int>, newTime: map<int, int>, newReason: map<int, string>,
             deletedCount: nat)
    ensures var keep := Kept(|keys|, AutoDisabledAt(row, |keys|));
            forall j :: 0 <= j < |keep| ==> keep[j] < |keys|
    ensures Row(Join(remainingKeys, '\n'), |remainingKeys|, newStatus, newTime, newReason)
            == RemainingRow(row, keys, Kept(|keys|, AutoDisabledAt(row, |keys|)), EnabledAt(row, |keys|))
    ensures deletedCount == |AutoDisabledAt(row, |keys|)|
  {
    remainingKeys, newStatus, newTime, newReason, deletedCount := [], map[], map[], map[], 0;
    var newIndex := 0;
    ghost var on, drop, keep := EnabledAt(row, |keys|), AutoDisabledAt(row, |keys|), [];
    for i := 0 to |keys|
      invariant keep == Kept(i, drop) && newIndex == |keep|
      invariant forall j :: 0 <= j < |keep| ==> keep[j] < i
      invariant deletedCount == |AutoDisabledAt(row, i)|
      invariant remainingKeys == KeysAt(keys, keep)
      invariant newStatus == Reindexed(row.status, keep, on)
      invariant newTime == Reindexed(row.time, keep, on)
      invariant newReason == Reindexed(row.reason, keep, on)
    {
      var status := if i in row.status then row.status[i] else ENABLED;
      AutoDisabledGrows(row, i);
      if status == AUTO_DISABLED {
        deletedCount := deletedCount + 1;
      } else {
        ReindexedSnoc(row.status, keep, i, on);
        ReindexedSnoc(row.time, keep, i, on);
        ReindexedSnoc(row.reason, keep, i, on);
        KeysAtSnoc(keys, keep, i);
        remainingKeys := remainingKeys + [keys[i]];
        if status != ENABLED {
          newStatus := newStatus[newIndex := status];
          if i in row.time { newTime := newTime[newIndex := row.time[i]]; }
          if i in row.reason { newReason := newReason[newIndex := row.reason[i]]; }
        }
        newIndex, keep := newIndex + 1, keep + [i];
      }
    }
  }

  lemma AutoDisabledGrows(row: Row, i: nat)
    ensures |AutoDisabledAt(row, i + 1)| == |AutoDisabledAt(row, i)| + if StatusOf(row, i) == AUTO_DISABLED then 1
        else 0
  {
    assert AutoDisabledAt(row, i + 1) == AutoDisabledAt(row, i) + if StatusOf(row, i) == AUTO_DISABLED then {i} else {};
  }

  function DisabledUpTo(row: Row, n: nat): map<int, int> {
    if n == 0 then row.status
    else if StatusOf(row, n - 1) == ENABLED then DisabledUpTo(row, n - 1)[n - 1 := MANUALLY_DISABLED]
    else DisabledUpTo(row, n - 1)
  }

  lemma {:induction false} DisabledUpToIs(row: Row, n: nat)
    ensures forall k :: k in DisabledUpTo(row, n) <==> k in row.status || (0 <= k < n && StatusOf(row, k) == ENABLED)
    ensures forall k :: k in DisabledUpTo(row, n) ==>
              DisabledUpTo(row, n)[k] == if 0 <= k < n && StatusOf(row, k) == ENABLED then MANUALLY_DISABLED
                  else StatusOf(row, k)
  {
    if n > 0 { DisabledUpToIs(row, n - 1); }
  }

  lemma DisabledUpToMap(row: Row, n: nat)
    ensures DisabledUpTo(row, n) == row.status + map k | k in EnabledAt(row, n) :: MANUALLY_DISABLED
  {
    DisabledUpToIs(row, n);
  }

  lemma EnabledGrows(row: Row, i: nat)
    ensures |EnabledAt(row, i + 1)| == |EnabledAt(row, i)| + if StatusOf(row, i) == ENABLED then 1 else 0
  {
    assert EnabledAt(row, i + 1) == EnabledAt(row, i) + if StatusOf(row, i) == ENABLED then {i} else {};
  }

  /** The loop that disables by hand every key still enabled. */
  method DisableEnabled(row: Row) returns (status: map<int, int>, disabledCount: nat)
    ensures row.size <= 0 ==> disabledCount == 0
    ensures row.size > 0 ==> disabledCount == |EnabledAt(row, row.size)|
                             && status == row.status + map k | k in EnabledAt(row, row.size) :: MANUALLY_DISABLED
  {
    status, disabledCount := row.status, 0;
    var i := 0;
    while i < row.size
      invariant 0 <= i && (i <= row.size || i == 0)
      invariant status == DisabledUpTo(row, i)
      invariant forall k | k >= i :: LookupOr(status, k, ENABLED) == StatusOf(row, k)
      invariant disabledCount == |EnabledAt(row, i)|
    {
      EnabledGrows(row, i);
      if LookupOr(status, i, ENABLED) == ENABLED {
        status := status[i := MANUALLY_DISABLED];
        disabledCount := disabledCount + 1;
      }
      i := i + 1;
    }
    DisabledUpToMap(row, i);
  }

  /** The loops that drop blank and repeated keys from the ones to append. */
  method Deduplicate(existingKeys: seq<string>, newKeys: seq<string>) returns (deduped: seq<string>)
    ensures deduped == FreshKeys(newKeys, SeenKeys(existingKeys))
  {
    var seen: set<string> := {};
    for i := 0 to |existingKeys|
      invariant seen == SeenKeys(existingKeys[..i])
    {
      var normalized := TrimSpace(existingKeys[i]);
      assert existingKeys[..i + 1] == existingKeys[..i] + [existingKeys[i]];
      SeenSnoc(existingKeys[..i], existingKeys[i]);
      if normalized != [] { seen := seen + {normalized}; }
    }
    assert existingKeys[..|existingKeys|] == existingKeys;
    deduped := [];
    ghost var all := FreshKeys(newKeys, seen);
    for i := 0 to |newKeys|
      invariant deduped + FreshKeys(newKeys[i..], seen) == all
    {
      var normalized := TrimSpace(newKeys[i]);
      assert newKeys[i..][1..] == newKeys[i + 1..];
      if normalized == [] || normalized in seen { continue; }
      seen := seen + {normalized};
      deduped := deduped + [normalized];
    }
  }

  lemma SeenSnoc(keys: seq<string>, k: string)
    ensures SeenKeys(keys + [k]) == SeenKeys(keys) + if TrimSpace(k) != [] then {TrimSpace(k)} else {}
  {
    var all := keys + [k];
    forall x | x in SeenKeys(keys) ensures x in SeenKeys(all) {
      var i :| 0 <= i < |keys| && TrimSpace(keys[i]) != [] && x == TrimSpace(keys[i]);
      assert all[i] == keys[i];
    }
    if TrimSpace(k) != [] { assert all[|keys|] == k; }
  }

  /** The loop that shows every key and counts the keys of each status. */
  method ShowAll(row: Row, json: JsonArray) returns (all: seq<KeyStatus>, e: nat, m: nat, a: nat)
    ensures all == View(row, json)
    ensures e == |WithStatus(all, ENABLED)| && m == |WithStatus(all, MANUALLY_DISABLED)|
        && a == |WithStatus(all, AUTO_DISABLED)|
  {
    var keys := GetKeys(row.key, json);
    all, e, m, a := [], 0, 0, 0;
    for i := 0 to |keys|
      invariant |all| == i && all == View(row, json)[..i]
      invariant e == |WithStatus(all, ENABLED)| && m == |WithStatus(all, MANUALLY_DISABLED)|
          && a == |WithStatus(all, AUTO_DISABLED)|
    {
      var s, disabledTime, reason := StatusOf(row, i), 0, "";
      if s == 1 { e := e + 1; } else if s == 2 { m := m + 1; } else if s == 3 { a := a + 1; }
      if s != 1 {
        disabledTime := if i in row.time then row.time[i] else 0;
        reason := if i in row.reason then row.reason[i] else "";
      }
      var next := KeyStatus(i, s, disabledTime, reason, Preview(keys[i]));
      assert next == View(row, json)[i];
      assert (all + [next])[..i] == all;
      all := all + [next];
    }
  }

  method Filter(all: seq<KeyStatus>, status: int) returns (filtered: seq<KeyStatus>)
    ensures filtered == WithStatus(all, status)
  {
    filtered := [];
    for i := 0 to |all|
      invariant filtered == WithStatus(all[..i], status)
    {
      assert all[..i + 1][..i] == all[..i];
      if all[i].status == status { filtered := filtered + [all[i]]; }
    }
    assert all[..|all|] == all;
  }

  /** One page of a list: the page is moved back to the last one when it lies past it. */
  method TakePage<T>(list: seq<T>, page: nat, pageSize: nat) returns (keys: seq<T>, p: nat, totalPages: nat)
    requires page > 0 && pageSize > 0
    ensures totalPages == TotalPages(|list|, pageSize)
    ensures p == if page > totalPages then totalPages else page
    ensures p > 0 && keys == PageOf(list, p, pageSize)
  {
    p := page;
    totalPages := (|list| + pageSize - 1) / pageSize;
    if totalPages == 0 { totalPages := 1; }
    if p > totalPages { p := totalPages; }
    var first := (p - 1) * pageSize;
    ProductOrder(0, p - 1, pageSize);
    var last := first + pageSize;
    if last > |list| { last := |list|; }
    keys := [];
    if first < |list| { keys := list[first..last]; }
  }

  lemma {:induction false} FirstIndexIs(keys: seq<string>, k: string, i: nat)
    requires i < |keys| && keys[i] == k && k !in keys[..i]
    ensures FirstIndex(keys, k) == i
  {
    if i > 0 {
      assert keys[0] == keys[..i][0] && keys[1..][..i - 1] == keys[..i][1..];
      FirstIndexIs(keys[1..], k, i - 1);
    }
  }

  method FindKey(keys: seq<string>, usingKey: string) returns (keyIndex: nat)
    ensures keyIndex == IndexOrZero(keys, usingKey)
  {
    for i := 0 to |keys|
      invariant usingKey !in keys[..i]
    {
      if keys[i] == usingKey {
        FirstIndexIs(keys, usingKey, i);
        return i;
      }
    }
    assert keys[..|keys|] == keys;
    return 0;
  }

  class MultiKeyChannel {
    var row: Row
    const json: JsonArray

    constructor (row: Row, json: JsonArray)
      ensures this.row == row && this.json == json
    {
      this.row := row;
      this.json := json;
    }

    method DisableKey(index: Option<int>) returns (ok: bool)
      modifies this
      ensures ok <==> index.Some? && 0 <= index.value < old(row).size
      ensures row == if index.Some? then Act(old(row), Disable(index.value), json) else old(row)
    {
      if index == None || index.value < 0 || index.value >= row.size { return false; }
      row := SaveRow(row, row.(status := row.status[index.value := MANUALLY_DISABLED]), json);
      return true;
    }

    method EnableKey(index: Option<int>) returns (ok: bool)
      modifies this
      ensures ok <==> index.Some? && 0 <= index.value < old(row).size
      ensures row == if index.Some? then Act(old(row), Enable(index.value), json) else old(row)
    {
      if index == None || index.value < 0 || index.value >= row.size { return false; }
      var i := index.value;
      row := SaveRow(row, row.(status := row.status - {i}, time := row.time - {i}, reason := row.reason - {i}), json);
      return true;
    }

    method EnableAllKeys()
      modifies this
      ensures row == Act(old(row), EnableAll, json)
    {
      row := SaveRow(row, row.(status := map[], time := map[], reason := map[]), json);
    }

    method DisableAllKeys() returns (ok: bool)
      modifies this
      ensures row == Act(old(row), DisableAll, json)
      ensures ok <==> old(row).size > 0 && EnabledAt(old(row), old(row).size) != {}
    {
      var status, disabledCount := DisableEnabled(row);
      if disabledCount == 0 { return false; }
      row := SaveRow(row, row.(status := status), json);
      return true;
    }

    method DeleteKey(index: Option<int>) returns (ok: bool)
      modifies this
      ensures row == if index.Some? then Act(old(row), Delete(index.value), json) else old(row)
      ensures ok <==> index.Some? && 0 <= index.value < old(row).size
                      && Kept(|GetKeys(old(row).key, json)|, {index.value}) != []
    {
      if index == None || index.value < 0 || index.value >= row.size { return false; }
      var keys := GetKeys(row.key, json);
      var remainingKeys, newStatus, newTime, newReason := KeysWithout(row, keys, index.value);
      if |remainingKeys| == 0 { return false; }
      row := SaveRow(row, Row(Join(remainingKeys, '\n'), |remainingKeys|, newStatus, newTime, newReason), json);
      return true;
    }

    method DeleteDisabledKeys() returns (deletedCount: nat)
      modifies this
      ensures row == Act(old(row), DeleteAutoDisabled, json)
      ensures deletedCount == |AutoDisabledAt(old(row), |GetKeys(old(row).key, json)|)|
    {
      var remainingKeys, newStatus, newTime, newReason;
      remainingKeys, newStatus, newTime, newReason, deletedCount := KeysNotAutoDisabled(row, GetKeys(row.key, json));
      if deletedCount == 0 { return; }
      row := SaveRow(row, Row(Join(remainingKeys, '\n'), |remainingKeys|, newStatus, newTime, newReason), json);
    }

    method AppendKeys(newKeys: seq<string>)
      modifies this
      ensures row == Act(old(row), Append(newKeys), json)
    {
      if row.key == [] { return; }
      var existingKeys := ExistingKeys(row.key, json);
      var deduped := Deduplicate(existingKeys, newKeys);
      row := SaveRow(row, row.(key := Join(existingKeys + deduped, '\n')), json);
    }

    /** The update a failing or recovering key causes; a key that is not found counts as the first one. */
    method UpdateStatus(usingKey: string, status: int, why: string, now: int)
      modifies this
      ensures row == Act(old(row), AutoUpdate(usingKey, status, why, now), json)
    {
      var keys := GetKeys(row.key, json);
      if |keys| == 0 { return; }
      var keyIndex := FindKey(keys, usingKey);
      if status == ENABLED {
        row := row.(status := row.status - {keyIndex});
      } else {
        row := row.(status := row.status[keyIndex := status], time := row.time[keyIndex := now],
            reason := row.reason[keyIndex := why]);
      }
    }

    /** The status listing: statistics over all keys, then one page of the keys with the status asked for. */
    method GetKeyStatus(page: int, pageSize: int, status: Option<int>) returns (r: StatusPage)
      ensures r.enabledCount == |WithStatus(View(row, json), ENABLED)|
      ensures r.manualDisabledCount == |WithStatus(View(row, json), MANUALLY_DISABLED)|
      ensures r.autoDisabledCount == |WithStatus(View(row, json), AUTO_DISABLED)|
      ensures r.pageSize == if pageSize <= 0 then 50 else pageSize
      ensures var list := if status.Some? then WithStatus(View(row, json), status.value) else View(row, json);
              && r.total == |list| && r.totalPages == TotalPages(|list|, r.pageSize)
              && r.page == (if page <= 0 then 1 else if page > r.totalPages then r.totalPages else page)
              && r.keys == PageOf(list, r.page, r.pageSize)
    {
      var size := if pageSize <= 0 then 50 else pageSize;
      var filtered, e, m, a := ShowAll(row, json);
      if status.Some? { filtered := Filter(filtered, status.value); }
      var pageKeys, p, totalPages := TakePage(filtered, if page <= 0 then 1 else page, size);
      r := StatusPage(pageKeys, |filtered|, p, size, totalPages, e, m, a);
    }
  }
}
