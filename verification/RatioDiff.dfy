/** Comparing the local prices with those of several upstream channels, and reporting where they differ. */
module RatioDiff {
  import opened Tolerance

  datatype Value = Null | Num(number: real) | Text(text: string)

  const SAME := Text("same")

  const FIELDS: set<string> := {
    "model_ratio", "completion_ratio", "cache_ratio", "create_cache_ratio", "image_ratio", "audio_ratio",
    "audio_completion_ratio", "model_price", "billing_mode", "billing_expr"}

  predicate ValuesEqual(a: Value, b: Value) {
    if a.Num? && b.Num? then NearlyEqual(a.number, b.number) else a == b
  }

  /** One price of one model. */
  datatype Cell = Cell(model: string, field: string)

  type Table = map<Cell, Value>

  datatype Channel = Channel(name: string, table: Table)

  datatype Item = Item(current: Value, upstreams: map<string, Value>)

  function LocalValue(local: Table, cell: Cell): Value {
    if cell in local then local[cell] else Null
  }

  /** What the report shows for a channel: its value, "same", or nothing when only the local side has one. */
  function Shown(current: Value, channel: Channel, cell: Cell): Value {
    if cell in channel.table then (if ValuesEqual(current, channel.table[cell]) then SAME else channel.table[cell])
    else if current == Null then SAME else Null
  }

  /** The channel has a value that is not the local one. */
  predicate Differs(current: Value, channel: Channel, cell: Cell) {
    cell in channel.table && (current == Null || !ValuesEqual(current, channel.table[cell]))
  }

  ghost predicate Included(current: Value, channels: seq<Channel>, cell: Cell) {
    exists i :: 0 <= i < |channels| && Differs(current, channels[i], cell)
  }

  function Upstreams(current: Value, channels: seq<Channel>, cell: Cell): map<string, Value> {
    if channels == [] then map[]
    else
      var n := |channels| - 1;
      Upstreams(current, channels[..n], cell)[channels[n].name := Shown(current, channels[n], cell)]
  }

  function AllModels(local: Table, channels: seq<Channel>): set<string> {
    (set c | c in local && c.field in FIELDS :: c.model)
    + set i, c | 0 <= i < |channels| && c in channels[i].table && c.field in FIELDS :: c.model
  }

  function Cells(local: Table, channels: seq<Channel>): set<Cell> {
    set m, f | m in AllModels(local, channels) && f in FIELDS :: Cell(m, f)
  }

  predicate IsDifference(v: Value) {
    v != Null && v != SAME
  }

  // ---------------------------------------------------------------------------
  // The loops
  // ---------------------------------------------------------------------------

  method CompareCell(current: Value, channels: seq<Channel>, cell: Cell)
      returns (upstreams: map<string, Value>, shouldInclude: bool)
    ensures upstreams == Upstreams(current, channels, cell)
    ensures shouldInclude <==> Included(current, channels, cell)
  {
    upstreams := map[];
    var hasUpstreamValue, hasDifference := false, false;
    for i := 0 to |channels|
      invariant upstreams == Upstreams(current, channels[..i], cell)
      invariant hasUpstreamValue <==> exists k :: 0 <= k < i && cell in channels[k].table
      invariant current != Null ==> (hasDifference <==> exists k :: 0 <= k < i && Differs(current, channels[k], cell))
    {
      var channel, upstream := channels[i], Null;
      if cell in channel.table {
        upstream := channel.table[cell];
        hasUpstreamValue := true;
        if current != Null && !ValuesEqual(current, upstream) {
          hasDifference := true;
        } else if ValuesEqual(current, upstream) {
          upstream := SAME;
        }
      }
      if upstream == Null && current == Null { upstream := SAME; }
      if current == Null && upstream != Null && upstream != SAME { hasDifference := true; }
      upstreams := upstreams[channel.name := upstream];
      assert channels[..i + 1][..i] == channels[..i];
    }
    assert channels[..|channels|] == channels;
    shouldInclude := if current != Null then hasDifference else hasUpstreamValue;
  }

  function ItemOf(local: Table, channels: seq<Channel>, cell: Cell): Item {
    Item(LocalValue(local, cell), Upstreams(LocalValue(local, cell), channels, cell))
  }

  ghost predicate Compared(local: Table, channels: seq<Channel>, cells: set<Cell>, differences: map<Cell, Item>) {
    && (forall c :: c in differences <==> c in cells && Included(LocalValue(local, c), channels, c))
    && (forall c :: c in differences ==> differences[c] == ItemOf(local, channels, c))
  }

  method CompareAll(local: Table, channels: seq<Channel>, cells: set<Cell>) returns (differences: map<Cell, Item>)
    ensures Compared(local, channels, cells, differences)
  {
    differences := map[];
    var todo := cells;
    while todo != {}
      invariant todo <= cells && Compared(local, channels, cells - todo, differences)
    {
      var cell :| cell in todo;
      var upstreams, shouldInclude := CompareCell(LocalValue(local, cell), channels, cell);
      if shouldInclude { differences := differences[cell := Item(LocalValue(local, cell), upstreams)]; }
      todo := todo - {cell};
    }
  }

  ghost predicate ShowsDifference(differences: map<Cell, Item>, cell: Cell, name: string) {
    cell in differences && name in differences[cell].upstreams && IsDifference(differences[cell].upstreams[name])
  }

  method NamesIn(item: Item) returns (names: set<string>)
    ensures forall n :: n in names <==> n in item.upstreams && IsDifference(item.upstreams[n])
  {
    names := {};
    var todo := item.upstreams.Keys;
    while todo != {}
      invariant todo <= item.upstreams.Keys
      invariant forall n :: n in names <==> n in item.upstreams.Keys - todo && IsDifference(item.upstreams[n])
    {
      var name :| name in todo;
      if IsDifference(item.upstreams[name]) { names := names + {name}; }
      todo := todo - {name};
    }
  }

  method ChannelsWithDifference(differences: map<Cell, Item>) returns (names: set<string>)
    ensures forall n :: n in names <==> exists c :: ShowsDifference(differences, c, n)
  {
    names := {};
    var todo := differences.Keys;
    while todo != {}
      invariant todo <= differences.Keys
      invariant forall n :: n in names <==> exists c :: c !in todo && ShowsDifference(differences, c, n)
    {
      var cell :| cell in todo;
      var more := NamesIn(differences[cell]);
      ghost var was, before := names, todo;
      names := names + more;
      todo := todo - {cell};
      forall n ensures n in names <==> exists c :: c !in todo && ShowsDifference(differences, c, n) {
        if n in was { var c :| c !in before && ShowsDifference(differences, c, n); assert c !in todo; }
        if n in more { assert cell !in todo && ShowsDifference(differences, cell, n); }
        if c :| c !in todo && ShowsDifference(differences, c, n) { assert c == cell || c !in before; }
      }
    }
  }

  function KeepNames(upstreams: map<string, Value>, names: set<string>): map<string, Value> {
    map n | n in upstreams && n in names :: upstreams[n]
  }

  ghost predicate Worth(upstreams: map<string, Value>) {
    exists n :: n in upstreams && upstreams[n] != SAME
  }

  method Worthwhile(upstreams: map<string, Value>) returns (worth: bool)
    ensures worth <==> Worth(upstreams)
  {
    var todo := upstreams.Keys;
    while todo != {}
      invariant todo <= upstreams.Keys
      invariant forall n :: n in upstreams.Keys - todo ==> upstreams[n] == SAME
    {
      var name :| name in todo;
      if upstreams[name] != SAME { return true; }
      todo := todo - {name};
    }
    return false;
  }

  ghost predicate Pruned(differences: map<Cell, Item>, names: set<string>, cells: set<Cell>, report: map<Cell, Item>) {
    && (forall c :: c in report <==>
        c in differences && (c in cells ==> Worth(KeepNames(differences[c].upstreams, names))))
    && (forall c :: c in report ==>
          report[c] == if c in cells then differences[c].(upstreams := KeepNames(differences[c].upstreams, names))
              else differences[c])
  }

  method Prune(differences: map<Cell, Item>, names: set<string>) returns (report: map<Cell, Item>)
    ensures Pruned(differences, names, differences.Keys, report)
  {
    report := differences;
    var todo := differences.Keys;
    while todo != {}
      invariant todo <= differences.Keys && Pruned(differences, names, differences.Keys - todo, report)
    {
      var cell :| cell in todo;
      var upstreams := KeepNames(differences[cell].upstreams, names);
      var worth := Worthwhile(upstreams);
      if worth {
        report := report[cell := differences[cell].(upstreams := upstreams)];
      } else {
        report := report - {cell};
      }
      todo := todo - {cell};
    }
  }

  // ---------------------------------------------------------------------------
  // The report
  // ---------------------------------------------------------------------------

  /** The channel has a value of its own there, neither null nor the word the report uses for "no difference". */
  ghost predicate Real(local: Table, channel: Channel, cell: Cell) {
    cell.field in FIELDS && Differs(LocalValue(local, cell), channel, cell) && IsDifference(channel.table[cell])
  }

  ghost predicate HasRealDifference(local: Table, channel: Channel) {
    exists c :: Real(local, channel, c)
  }

  ghost predicate DistinctNames(channels: seq<Channel>) {
    forall i, j :: 0 <= i < j < |channels| ==> channels[i].name != channels[j].name
  }

  /**
   Which prices are reported: those some channel has another value for, provided one such value is
   real, or a channel with a real difference elsewhere has none here.
   */
  ghost predicate Reported(local: Table, channels: seq<Channel>, cell: Cell) {
    var current := LocalValue(local, cell);
    && cell.field in FIELDS && Included(current, channels, cell)
    && exists i :: 0 <= i < |channels| && HasRealDifference(local, channels[i])
        && Shown(current, channels[i], cell) != SAME
  }

  lemma {:induction false} UpstreamsAt(current: Value, channels: seq<Channel>, cell: Cell)
    requires DistinctNames(channels)
    ensures forall n :: n in Upstreams(current, channels, cell) ==>
        exists i :: 0 <= i < |channels| && channels[i].name == n
    ensures forall i :: 0 <= i < |channels| ==>
              channels[i].name in Upstreams(current, channels, cell)
              && Upstreams(current, channels, cell)[channels[i].name] == Shown(current, channels[i], cell)
  {
    if channels != [] {
      var n := |channels| - 1;
      UpstreamsAt(current, channels[..n], cell);
      assert forall i :: 0 <= i < n ==> channels[..n][i] == channels[i];
    }
  }

  /** The report shows a difference exactly for real ones. */
  lemma RealIff(local: Table, channel: Channel, cell: Cell)
    ensures Real(local, channel, cell) <==>
        cell.field in FIELDS && IsDifference(Shown(LocalValue(local, cell), channel, cell))
  {
  }

  lemma CellsAre(local: Table, channels: seq<Channel>, cell: Cell)
    ensures cell in Cells(local, channels) ==> cell.field in FIELDS
    ensures cell.field in FIELDS && Included(LocalValue(local, cell), channels, cell) ==> cell in Cells(local, channels)
  {
    if cell.field in FIELDS && Included(LocalValue(local, cell), channels, cell) {
      var i :| 0 <= i < |channels| && Differs(LocalValue(local, cell), channels[i], cell);
      assert cell in channels[i].table;
      assert cell.model in AllModels(local, channels);
      assert cell == Cell(cell.model, cell.field);
    }
  }

  lemma NamesAre(local: Table, channels: seq<Channel>, differences: map<Cell, Item>, i: nat)
    requires DistinctNames(channels) && Compared(local, channels, Cells(local, channels), differences) && i < |channels|
    ensures (exists c :: ShowsDifference(differences, c, channels[i].name)) <==> HasRealDifference(local, channels[i])
  {
    if c :| ShowsDifference(differences, c, channels[i].name) {
      UpstreamsAt(LocalValue(local, c), channels, c);
      CellsAre(local, channels, c);
      RealIff(local, channels[i], c);
    }
    if c :| Real(local, channels[i], c) {
      assert Included(LocalValue(local, c), channels, c);
      CellsAre(local, channels, c);
      UpstreamsAt(LocalValue(local, c), channels, c);
      RealIff(local, channels[i], c);
      assert ShowsDifference(differences, c, channels[i].name);
    }
  }

  ghost predicate NamesRealChannels(local: Table, channels: seq<Channel>, names: set<string>) {
    forall i :: 0 <= i < |channels| ==> (channels[i].name in names <==> HasRealDifference(local, channels[i]))
  }

  /** An item holds the local value and, for each channel with a real difference anywhere, what that channel shows. */
  ghost predicate ItemIsRight(local: Table, channels: seq<Channel>, cell: Cell, item: Item) {
    && item.current == LocalValue(local, cell)
    && (forall n :: n in item.upstreams ==> exists i :: 0 <= i < |channels| && channels[i].name == n)
    && (forall i :: 0 <= i < |channels| ==>
          && (channels[i].name in item.upstreams <==> HasRealDifference(local, channels[i]))
          && (channels[i].name in item.upstreams ==>
              item.upstreams[channels[i].name] == Shown(item.current, channels[i], cell)))
  }

  lemma KeptItem(local: Table, channels: seq<Channel>, cell: Cell, names: set<string>)
    requires DistinctNames(channels) && NamesRealChannels(local, channels, names)
    ensures var item := ItemOf(local, channels, cell);
            var kept := item.(upstreams := KeepNames(item.upstreams, names));
            && ItemIsRight(local, channels, cell, kept)
            && (Worth(kept.upstreams) <==>
                  exists i :: 0 <= i < |channels| && HasRealDifference(local, channels[i])
                      && Shown(item.current, channels[i], cell) != SAME)
  {
    var item := ItemOf(local, channels, cell);
    var kept := item.(upstreams := KeepNames(item.upstreams, names));
    UpstreamsAt(LocalValue(local, cell), channels, cell);
    if i :|
        && 0 <= i < |channels| && HasRealDifference(local, channels[i])
        && Shown(item.current, channels[i], cell) != SAME
    {
      assert kept.upstreams[channels[i].name] != SAME;
    }
  }

  method BuildDifferences(local: Table, channels: seq<Channel>) returns (report: map<Cell, Item>)
    requires DistinctNames(channels)
    ensures forall c :: c in report <==> Reported(local, channels, c)
    ensures forall c :: c in report ==> ItemIsRight(local, channels, c, report[c])
  {
    var differences := CompareAll(local, channels, Cells(local, channels));
    var names := ChannelsWithDifference(differences);
    report := Prune(differences, names);
    assert NamesRealChannels(local, channels, names) by {
      forall i | 0 <= i < |channels| ensures channels[i].name in names <==> HasRealDifference(local, channels[i]) {
        NamesAre(local, channels, differences, i);
      }
    }
    forall c ensures c in report <==> Reported(local, channels, c)
      ensures c in report ==> ItemIsRight(local, channels, c, report[c])
    {
      CellsAre(local, channels, c);
      KeptItem(local, channels, c, names);
    }
  }

  // ---------------------------------------------------------------------------
  // What the report tells
  // ---------------------------------------------------------------------------

  /** Some upstream value differs from the local one, or there is one and no local one. */
  ghost predicate ShouldReport(local: Table, channels: seq<Channel>, cell: Cell) {
    cell.field in FIELDS && Included(LocalValue(local, cell), channels, cell)
  }

  ghost predicate RealHere(local: Table, channels: seq<Channel>, cell: Cell) {
    exists i :: 0 <= i < |channels| && Real(local, channels[i], cell)
  }

  /** A channel that differs elsewhere has nothing here, where there is a local value. */
  ghost predicate SilentHere(local: Table, channels: seq<Channel>, cell: Cell) {
    LocalValue(local, cell) != Null &&
    exists i :: 0 <= i < |channels| && HasRealDifference(local, channels[i])
        && Shown(LocalValue(local, cell), channels[i], cell) == Null
  }

  /** A price that should be reported is reported exactly when one of two things holds. */
  lemma ReportedIff(local: Table, channels: seq<Channel>, cell: Cell)
    ensures Reported(local, channels, cell) <==>
              ShouldReport(local, channels, cell) && (RealHere(local, channels, cell)
                  || SilentHere(local, channels, cell))
  {
    var current := LocalValue(local, cell);
    if Reported(local, channels, cell) {
      var i :| 0 <= i < |channels| && HasRealDifference(local, channels[i])
          && Shown(current, channels[i], cell) != SAME;
      RealIff(local, channels[i], cell);
    }
    if RealHere(local, channels, cell) {
      var i :| 0 <= i < |channels| && Real(local, channels[i], cell);
      RealIff(local, channels[i], cell);
      assert HasRealDifference(local, channels[i]) && Shown(current, channels[i], cell) != SAME;
    }
  }

  /** So nothing is missed and nothing is made up where no upstream value is null or the word "same". */
  lemma ReportedWhenPlain(local: Table, channels: seq<Channel>, cell: Cell)
    requires forall i :: 0 <= i < |channels| && cell in channels[i].table ==> IsDifference(channels[i].table[cell])
    ensures Reported(local, channels, cell) <==> ShouldReport(local, channels, cell)
  {
    ReportedIff(local, channels, cell);
    if ShouldReport(local, channels, cell) {
      var i :| 0 <= i < |channels| && Differs(LocalValue(local, cell), channels[i], cell);
      assert Real(local, channels[i], cell);
    }
  }

  /** An upstream value that is the very word "same" goes unreported. */
  lemma SameIsMissed(cell: Cell, name: string)
    requires cell.field in FIELDS
    ensures var channels := [Channel(name, map[cell := SAME])];
            ShouldReport(map[], channels, cell) && !Reported(map[], channels, cell)
  {
    var channels := [Channel(name, map[cell := SAME])];
    assert Differs(Null, channels[0], cell);
    ReportedIff(map[], channels, cell);
  }

  /** A channel is left out of the report exactly when it has no real difference, and one it has is reported. */
  lemma ChannelLeftOutIff(local: Table, channels: seq<Channel>, i: nat)
    requires i < |channels|
    ensures HasRealDifference(local, channels[i]) <==>
              exists c :: Reported(local, channels, c) && IsDifference(Shown(LocalValue(local, c), channels[i], c))
  {
    if c :| Real(local, channels[i], c) {
      RealIff(local, channels[i], c);
      ReportedIff(local, channels, c);
      assert Reported(local, channels, c) && IsDifference(Shown(LocalValue(local, c), channels[i], c));
    }
    if c :| Reported(local, channels, c) && IsDifference(Shown(LocalValue(local, c), channels[i], c)) {
      RealIff(local, channels[i], c);
    }
  }

  /** Taking over all of a channel's values leaves nothing to report against it. */
  lemma AdoptedChannelSettles(local: Table, channel: Channel, cell: Cell)
    ensures !Reported(local + channel.table, [channel], cell)
  {
    var local' := local + channel.table;
    forall c ensures !Real(local', channel, c) {
      if c in channel.table { assert ValuesEqual(local'[c], channel.table[c]); }
    }
    ReportedIff(local', [channel], cell);
  }
}
