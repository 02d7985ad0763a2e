/** Exporting all options but the secret ones in one bundle, and importing such a bundle. */
module OptionBundle {
  import opened Options

  function Lower(c: char): char {
    if 'A' <= c <= 'Z' then (c as int + 32) as char
    else if c == '\U{212A}' then 'k'
    else if c == '\U{0130}' then 'i'
    else c
  }

  function ToLower(s: string): string {
    seq(|s|, i requires 0 <= i < |s| => Lower(s[i]))
  }

  predicate HasSuffix(s: string, suffix: string) {
    |suffix| <= |s| && s[|s| - |suffix|..] == suffix
  }

  predicate Visible(key: string) {
    key == "WaffoPancakeWebhookPublicKey" || key == "WaffoPancakeWebhookTestKey"
  }

  /** The keys that never leave and never enter with a bundle. */
  predicate Blocked(key: string) {
    if key == "" || key == "SchemaMigrationHash" then true
    else if || HasSuffix(key, "Token") || HasSuffix(key, "Secret") || HasSuffix(key, "Key")
            || HasSuffix(ToLower(key), "secret") || HasSuffix(ToLower(key), "api_key")
    then !Visible(key)
    else false
  }

  /** The options in memory, and as the database holds them. */
  datatype Store = Store(memory: map<string, string>, db: map<string, string>)

  datatype Bundle = Bundle(schemaVersion: int, version: int, options: Option<map<string, string>>)

  predicate ValidBundle(b: Bundle) {
    && (b.schemaVersion == 0 || b.schemaVersion == 2)
    && (b.schemaVersion == 0 ==> b.version == 0 || b.version == 1)
    && b.options.Some?
  }

  /** What becomes of a value in the database; an error there goes unnoticed. */
  datatype Saved = AsGiven | OnlyTheKey | NotAtAll

  /** The rules a value must meet, which may depend on the other options; whether taking it over fails; its saving. */
  datatype Rules = Rules(
    accepts: (Store, string, string) -> bool, fails: (string, string) -> bool, saves: (string, string) -> Saved)

  datatype Action = Create | Update | Unchanged | IsBlocked | Rejected

  datatype Diff = Diff(key: string, incoming: string, action: Action)

  function ActionFor(s: Store, r: Rules, key: string, incoming: string): Action {
    if Blocked(key) then IsBlocked
    else if !r.accepts(s, key, incoming) then Rejected
    else if key !in s.memory then Create
    else if s.memory[key] == incoming then Unchanged
    else Update
  }

  function Diffs(s: Store, r: Rules, options: map<string, string>, keys: seq<string>): seq<Diff>
    requires forall k :: k in keys ==> k in options
  {
    seq(|keys|, i requires 0 <= i < |keys| => Diff(keys[i], options[keys[i]],
        ActionFor(s, r, keys[i], options[keys[i]])))
  }

  /** The keys in the order they are handled. */
  ghost predicate Enumerates(keys: seq<string>, options: map<string, string>) {
    && (forall k :: k in keys <==> k in options)
    && (forall i, j :: 0 <= i < j < |keys| ==> keys[i] != keys[j])
  }

  const THEME := "theme."

  /** What ends up in memory: any setting of the theme reads back as the one theme there is. */
  function Stored(key: string, value: string): string {
    if THEME <= key then "default" else value
  }

  /** What the database then has under the key: a row is made for it first, and filled in afterwards. */
  function InDatabase(s: Store, r: Rules, key: string, value: string): Option<string> {
    match r.saves(key, value)
    case AsGiven => Some(value)
    case OnlyTheKey => Some(LookupOr(s.db, key, ""))
    case NotAtAll => Lookup(s.db, key)
  }

  function Write(s: Store, r: Rules, key: string, value: string): Store {
    var saved := InDatabase(s, r, key, value);
    Store(s.memory[key := Stored(key, value)], if saved.Some? then s.db[key := saved.value] else s.db)
  }

  predicate Writes(d: Diff) {
    d.action == Create || d.action == Update
  }

  /** Writing the diffs in order; the first that fails is written all the same and ends it. */
  function WriteAll(s: Store, r: Rules, diffs: seq<Diff>): (Store, bool)
    decreases |diffs|
  {
    if diffs == [] then (s, true)
    else if !Writes(diffs[0]) then WriteAll(s, r, diffs[1..])
    else
      var s' := Write(s, r, diffs[0].key, diffs[0].incoming);
      if r.fails(diffs[0].key, diffs[0].incoming) then (s', false) else WriteAll(s', r, diffs[1..])
  }

  predicate AnyRejected(diffs: seq<Diff>) {
    exists i :: 0 <= i < |diffs| && diffs[i].action == Rejected
  }

  /** Applying a bundle; with anything rejected nothing is written. */
  function Import(s: Store, r: Rules, b: Bundle, keys: seq<string>): (Store, bool)
    requires b.options.Some? ==> forall k :: k in keys ==> k in b.options.value
  {
    if !ValidBundle(b) || AnyRejected(Diffs(s, r, b.options.value, keys)) then (s, false)
    else WriteAll(s, r, Diffs(s, r, b.options.value, keys))
  }

  function Export(s: Store): Bundle {
    Bundle(2, 0, Some(map k | k in s.memory && !Blocked(k) :: s.memory[k]))
  }

  // ---------------------------------------------------------------------------
  // The loops
  // ---------------------------------------------------------------------------

  class OptionStore {
    var store: Store
    const rules: Rules

    constructor (store: Store, rules: Rules)
      ensures this.store == store && this.rules == rules
    {
      this.store := store;
      this.rules := rules;
    }

    method BuildDiffs(options: map<string, string>, keys: seq<string>) returns (diffs: seq<Diff>, rejected: nat)
      requires forall k :: k in keys ==> k in options
      ensures diffs == Diffs(store, rules, options, keys)
      ensures rejected > 0 <==> AnyRejected(diffs)
    {
      diffs, rejected := [], 0;
      for i := 0 to |keys|
        invariant diffs == Diffs(store, rules, options, keys)[..i]
        invariant rejected > 0 <==> exists j :: 0 <= j < i && diffs[j].action == Rejected
      {
        var key := keys[i];
        assert key in keys;
        var d := Diff(key, options[key], ActionFor(store, rules, key, options[key]));
        if d.action == Rejected { rejected := rejected + 1; }
        diffs := diffs + [d];
        assert diffs[i] == d;
      }
    }

    method ApplyImport(b: Bundle, keys: seq<string>) returns (ok: bool)
      requires b.options.Some? ==> forall k :: k in keys ==> k in b.options.value
      modifies this
      ensures (store, ok) == Import(old(store), rules, b, keys)
    {
      if !ValidBundle(b) { return false; }
      var diffs, rejected := BuildDiffs(b.options.value, keys);
      if rejected > 0 { return false; }
      ghost var all := WriteAll(store, rules, diffs);
      for i := 0 to |diffs|
        invariant WriteAll(store, rules, diffs[i..]) == all
      {
        var d := diffs[i];
        assert diffs[i..][1..] == diffs[i + 1..];
        if !Writes(d) { continue; }
        store := Write(store, rules, d.key, d.incoming);
        if rules.fails(d.key, d.incoming) { return false; }
      }
      ok := true;
    }
  }

  // ---------------------------------------------------------------------------
  // What an import does
  // ---------------------------------------------------------------------------

  /** Key `k` is to be written with value `v`. */
  ghost predicate WritesTo(diffs: seq<Diff>, k: string, v: string) {
    exists i :: 0 <= i < |diffs| && Writes(diffs[i]) && diffs[i].key == k && diffs[i].incoming == v
  }

  ghost predicate DistinctKeys(diffs: seq<Diff>) {
    forall i, j :: 0 <= i < j < |diffs| ==> diffs[i].key != diffs[j].key
  }

  ghost predicate SameAt(s: Store, s': Store, k: string) {
    && (k in s.memory <==> k in s'.memory) && (k in s.memory ==> s.memory[k] == s'.memory[k])
    && (k in s.db <==> k in s'.db) && (k in s.db ==> s.db[k] == s'.db[k])
  }

  /** The key has its value in memory, and in the database as far as that could save it. */
  ghost predicate HasValue(s: Store, s': Store, r: Rules, k: string, v: string) {
    k in s'.memory && s'.memory[k] == Stored(k, v) && Lookup(s'.db, k) == InDatabase(s, r, k, v)
  }

  lemma WritesToCons(diffs: seq<Diff>, k: string, v: string)
    requires diffs != []
    ensures var d := diffs[0];
            WritesTo(diffs, k, v) <==> (Writes(d) && d.key == k && d.incoming == v) || WritesTo(diffs[1..], k, v)
  {
    var rest := diffs[1..];
    if WritesTo(rest, k, v) {
      var i :| 0 <= i < |rest| && Writes(rest[i]) && rest[i].key == k && rest[i].incoming == v;
      assert diffs[i + 1] == rest[i];
    }
    if WritesTo(diffs, k, v) {
      var i :| 0 <= i < |diffs| && Writes(diffs[i]) && diffs[i].key == k && diffs[i].incoming == v;
      assert i > 0 ==> rest[i - 1] == diffs[i];
    }
  }

  lemma WritesToOnce(diffs: seq<Diff>, v: string)
    requires diffs != [] && DistinctKeys(diffs)
    ensures !WritesTo(diffs[1..], diffs[0].key, v)
  {
    var rest := diffs[1..];
    forall i | 0 <= i < |rest| ensures rest[i].key != diffs[0].key { assert diffs[i + 1] == rest[i]; }
  }

  /** A key stays as it was or gets its value; without failure it gets it exactly when it is to be written. */
  lemma {:induction false} WriteAllAt(s: Store, r: Rules, diffs: seq<Diff>, k: string)
    requires DistinctKeys(diffs)
    ensures var (s', ok) := WriteAll(s, r, diffs);
            && (SameAt(s, s', k) || exists v :: WritesTo(diffs, k, v) && HasValue(s, s', r, k, v))
            && (ok ==> forall v :: WritesTo(diffs, k, v) ==> HasValue(s, s', r, k, v))
            && ((forall v :: !WritesTo(diffs, k, v)) ==> SameAt(s, s', k))
    decreases |diffs|
  {
    if diffs != [] {
      var d, rest := diffs[0], diffs[1..];
      assert DistinctKeys(rest);
      forall v
        ensures WritesTo(diffs, k, v) <==> (Writes(d) && d.key == k && d.incoming == v) || WritesTo(rest, k, v)
      {
        WritesToCons(diffs, k, v);
      }
      forall v | d.key == k ensures !WritesTo(rest, k, v) { WritesToOnce(diffs, v); }
      if !Writes(d) {
        WriteAllAt(s, r, rest, k);
      } else {
        var s1, s' := Write(s, r, d.key, d.incoming), WriteAll(s, r, diffs).0;
        WriteAllAt(s1, r, rest, k);
        if d.key == k {
          assert WritesTo(diffs, k, d.incoming) && HasValue(s, s', r, k, d.incoming);
        } else {
          assert SameAt(s, s1, k);
        }
      }
    }
  }

  lemma DiffsAt(s: Store, r: Rules, options: map<string, string>, keys: seq<string>, k: string)
    requires Enumerates(keys, options)
    ensures DistinctKeys(Diffs(s, r, options, keys))
    ensures forall v :: WritesTo(Diffs(s, r, options, keys), k, v) <==>
              k in options && v == options[k] && ActionFor(s, r, k, v) in {Create, Update}
  {
    var diffs := Diffs(s, r, options, keys);
    if k in options {
      assert k in keys;
      var i :| 0 <= i < |keys| && keys[i] == k;
      assert diffs[i].key == k && diffs[i].incoming == options[k];
    }
  }

  lemma RejectedIff(s: Store, r: Rules, options: map<string, string>, keys: seq<string>)
    requires Enumerates(keys, options)
    ensures AnyRejected(Diffs(s, r, options, keys)) <==>
        exists k :: k in options && ActionFor(s, r, k, options[k]) == Rejected
  {
    var diffs := Diffs(s, r, options, keys);
    if k :| k in options && ActionFor(s, r, k, options[k]) == Rejected {
      assert k in keys;
      var i :| 0 <= i < |keys| && keys[i] == k;
      assert diffs[i].action == Rejected;
    }
    if AnyRejected(diffs) {
      var i :| 0 <= i < |diffs| && diffs[i].action == Rejected;
      assert keys[i] in options;
    }
  }

  /**
   Whatever the bundle and wherever it fails: a key that is blocked, or not in the bundle, stays as it was,
   and every other key stays or gets its value. With anything rejected nothing changes at all.
   */
  lemma ImportTouchesOnly(s: Store, r: Rules, b: Bundle, keys: seq<string>, k: string)
    requires b.options.Some? && Enumerates(keys, b.options.value)
    ensures var (s', ok) := Import(s, r, b, keys);
            && (SameAt(s, s', k) || (k in b.options.value && !Blocked(k) && HasValue(s, s', r, k, b.options.value[k])))
            && ((exists x :: x in b.options.value && ActionFor(s, r, x, b.options.value[x]) == Rejected) ==>
                s' == s && !ok)
  {
    DiffsAt(s, r, b.options.value, keys, k);
    RejectedIff(s, r, b.options.value, keys);
    WriteAllAt(s, r, Diffs(s, r, b.options.value, keys), k);
  }

  /**
   After an import without failure every key of the bundle that is not blocked has its value in memory, and
   the database has of those written what it could save.
   */
  lemma ImportTakesOver(s: Store, r: Rules, b: Bundle, keys: seq<string>, k: string)
    requires b.options.Some? && Enumerates(keys, b.options.value) && Import(s, r, b, keys).1
    requires k in b.options.value && !Blocked(k)
    ensures var s' := Import(s, r, b, keys).0;
            && k in s'.memory && s'.memory[k] in {b.options.value[k], Stored(k, b.options.value[k])}
            && (Stored(k, b.options.value[k]) == b.options.value[k] ==> s'.memory[k] == b.options.value[k])
            && (ActionFor(s, r, k, b.options.value[k]) != Unchanged ==>
                  Lookup(s'.db, k) == InDatabase(s, r, k, b.options.value[k]))
  {
    DiffsAt(s, r, b.options.value, keys, k);
    RejectedIff(s, r, b.options.value, keys);
    WriteAllAt(s, r, Diffs(s, r, b.options.value, keys), k);
    assert ActionFor(s, r, k, b.options.value[k]) != Rejected;
  }

  lemma LowerConcat(a: string, b: string)
    ensures ToLower(a + b) == ToLower(a) + ToLower(b)
  {
  }

  /** A key that ends like a secret, however it is spelt, is in no export unless it is one of the two public keys. */
  lemma SecretsNeverLeave(s: Store, name: string, ending: string)
    requires ToLower(ending) in {"secret", "api_key"} || ending in {"Token", "Key"}
    ensures Visible(name + ending) || (Blocked(name + ending) && name + ending !in Export(s).options.value)
  {
    var key := name + ending;
    assert key[|name|..] == ending;
    LowerConcat(name, ending);
    assert ToLower(key)[|name|..] == ToLower(ending);
  }

  // ---------------------------------------------------------------------------
  // Importing again, and importing one's own export
  // ---------------------------------------------------------------------------

  /** The keys an import would write. */
  ghost predicate WouldWrite(s: Store, r: Rules, b: Bundle, keys: seq<string>, k: string)
    requires b.options.Some? && Enumerates(keys, b.options.value)
  {
    && ValidBundle(b) && !AnyRejected(Diffs(s, r, b.options.value, keys))
    && k in b.options.value && ActionFor(s, r, k, b.options.value[k]) in {Create, Update}
  }

  lemma {:induction false} NothingToWrite(s: Store, r: Rules, diffs: seq<Diff>)
    requires forall i :: 0 <= i < |diffs| ==> !Writes(diffs[i])
    ensures WriteAll(s, r, diffs) == (s, true)
    decreases |diffs|
  {
    if diffs != [] { NothingToWrite(s, r, diffs[1..]); }
  }

  /** An export taken from the same options is imported without writing anything, whatever the rules say. */
  lemma OwnExportChangesNothing(s: Store, r: Rules, keys: seq<string>)
    requires Enumerates(keys, Export(s).options.value)
    ensures Import(s, r, Export(s), keys).0 == s
  {
    var options := Export(s).options.value;
    var diffs := Diffs(s, r, options, keys);
    forall i | 0 <= i < |diffs| ensures !Writes(diffs[i]) { assert keys[i] in options; }
    NothingToWrite(s, r, diffs);
  }

  /** In memory the theme is always the one theme there is. */
  ghost predicate OneTheme(s: Store) {
    forall k :: k in s.memory && THEME <= k ==> s.memory[k] == "default"
  }

  lemma ImportKeepsOneTheme(s: Store, r: Rules, b: Bundle, keys: seq<string>)
    requires b.options.Some? && Enumerates(keys, b.options.value) && OneTheme(s)
    ensures OneTheme(Import(s, r, b, keys).0)
  {
    var s' := Import(s, r, b, keys).0;
    forall k | k in s'.memory && THEME <= k ensures s'.memory[k] == "default" { ImportTouchesOnly(s, r, b, keys, k); }
  }

  /**
   After an import without failure, importing the same bundle again writes a key exactly when nothing is
   rejected the second time and the key is a setting of the theme with another value than the one theme.
   */
  lemma SecondImportWritesIff(s: Store, r: Rules, b: Bundle, keys: seq<string>, k: string)
    requires b.options.Some? && Enumerates(keys, b.options.value) && OneTheme(s) && Import(s, r, b, keys).1
    ensures var s' := Import(s, r, b, keys).0;
            WouldWrite(s', r, b, keys, k) <==>
              && !AnyRejected(Diffs(s', r, b.options.value, keys))
              && k in b.options.value && !Blocked(k) && THEME <= k && b.options.value[k] != "default"
  {
    var s' := Import(s, r, b, keys).0;
    RejectedIff(s', r, b.options.value, keys);
    ImportKeepsOneTheme(s, r, b, keys);
    if k in b.options.value && !Blocked(k) { ImportTakesOver(s, r, b, keys, k); }
  }

  /** In particular a bundle without theme settings is taken over by one import: the second writes nothing. */
  lemma SecondImportWritesNothing(s: Store, r: Rules, b: Bundle, keys: seq<string>)
    requires b.options.Some? && Enumerates(keys, b.options.value) && OneTheme(s) && Import(s, r, b, keys).1
    requires forall k :: k in b.options.value ==> !(THEME <= k)
    ensures Import(Import(s, r, b, keys).0, r, b, keys).0 == Import(s, r, b, keys).0
  {
    var s' := Import(s, r, b, keys).0;
    var diffs := Diffs(s', r, b.options.value, keys);
    forall i | 0 <= i < |diffs| ensures !Writes(diffs[i]) || AnyRejected(diffs) {
      assert keys[i] in b.options.value;
      SecondImportWritesIff(s, r, b, keys, keys[i]);
    }
    if !AnyRejected(diffs) { NothingToWrite(s', r, diffs); }
  }

  /** Carrying all options from one installation to another: what is not blocked is then the same there. */
  lemma TransferKeepsOptions(from: Store, to: Store, r: Rules, keys: seq<string>, k: string)
    requires Enumerates(keys, Export(from).options.value) && Import(to, r, Export(from), keys).1
    requires k in from.memory && !Blocked(k) && (THEME <= k ==> from.memory[k] == "default")
    ensures var to' := Import(to, r, Export(from), keys).0;
            k in to'.memory && to'.memory[k] == from.memory[k] && Export(to').options.value[k] == from.memory[k]
  {
    ImportTakesOver(to, r, Export(from), keys, k);
  }
}
