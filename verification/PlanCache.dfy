/** The SQL plan caches of the models: cache keys, what they distinguish, and concurrent use. */
module PlanCache {

  /** boil.Columns: the kind of list and its column names. */
  datatype Columns = Columns(kind: int, names: seq<string>)

  datatype UpsertOptions = UpsertOptions(conflictTarget: string, updateSet: string)

  const NO_OPTIONS := UpsertOptions("", "")

  /** One cached operation with every input its plan depends on. */
  datatype Request =
    | Insert(columns: Columns, nzDefaults: seq<string>)
    | Update(columns: Columns)
    | Upsert(updateOnConflict: bool, conflict: seq<string>, update: Columns, insert: Columns,
             nzDefaults: seq<string>, opts: UpsertOptions)

  // ---------- keys ----------

  function Digit(n: nat): char
    requires n < 10
  {
    ('0' as int + n) as char
  }

  function Digits(n: nat): string {
    if n < 10 then [Digit(n)] else Digits(n / 10) + [Digit(n % 10)]
  }

  /** strconv.Itoa */
  function Itoa(n: int): string {
    if n < 0 then "-" + Digits(-n) else Digits(n)
  }

  function Concat(names: seq<string>): string {
    if names == [] then "" else Concat(names[..|names| - 1]) + names[|names| - 1]
  }

  function ColumnsText(cols: Columns): string {
    Itoa(cols.kind) + Concat(cols.names)
  }

  function CacheKey(cols: Columns, nzDefaults: seq<string>): string {
    ColumnsText(cols) + (if nzDefaults != [] then "." + Concat(nzDefaults) else "")
  }

  function UpsertKey(updateOnConflict: bool, conflict: seq<string>, update: Columns, insert: Columns,
                     nzDefaults: seq<string>): string {
    (if updateOnConflict then "t" else "f") + ("." + (Concat(conflict) + "."
      + (ColumnsText(update) + "." + (ColumnsText(insert) + "." + Concat(nzDefaults)))))
  }

  method MakeCacheKey(cols: Columns, nzDefaults: seq<string>) returns (key: string)
    ensures key == CacheKey(cols, nzDefaults)
  {
    key := Itoa(cols.kind);
    for i := 0 to |cols.names|
      invariant key == Itoa(cols.kind) + Concat(cols.names[..i])
    {
      assert cols.names[..i + 1][..i] == cols.names[..i];
      key := key + cols.names[i];
    }
    assert cols.names[..|cols.names|] == cols.names;
    if |nzDefaults| != 0 {
      key := key + ".";
    }
    ghost var front := key;
    for i := 0 to |nzDefaults|
      invariant key == front + Concat(nzDefaults[..i])
    {
      assert nzDefaults[..i + 1][..i] == nzDefaults[..i];
      key := key + nzDefaults[i];
    }
    assert nzDefaults[..|nzDefaults|] == nzDefaults;
  }

  // ---------- column names ----------

  predicate IsDigit(c: char) {
    '0' <= c <= '9'
  }

  /** A name that cannot be confused with the number or the separator before it. */
  predicate Plain(name: string) {
    name != "" && '.' !in name && !IsDigit(name[0])
  }

  ghost predicate Over(columns: set<string>, names: seq<string>) {
    forall i :: 0 <= i < |names| ==> names[i] in columns
  }

  ghost predicate PrefixFree(columns: set<string>) {
    forall a, b :: a in columns && b in columns && a <= b ==> a == b
  }

  ghost predicate SameText(a: seq<string>, b: seq<string>) {
    Concat(a) == Concat(b)
  }

  /** Every concatenation of names comes from one list of names only. */
  ghost predicate Decodable(columns: set<string>) {
    forall a, b :: Over(columns, a) && Over(columns, b) && SameText(a, b) ==> a == b
  }

  ghost predicate AllPlain(columns: set<string>) {
    forall c :: c in columns ==> Plain(c)
  }

  lemma {:induction false} ConcatFront(names: seq<string>)
    requires names != []
    ensures Concat(names) == names[0] + Concat(names[1..])
  {
    var n := |names| - 1;
    if n == 0 {
      assert names[..0] == [] && names[1..] == [];
    } else {
      var middle := names[1..n];
      ConcatFront(names[..n]);
      assert names[..n][1..] == middle && names[1..][..n - 1] == middle && names[1..][n - 1] == names[n];
      assert Concat(names) == (names[0] + Concat(middle)) + names[n] == names[0] + (Concat(middle) + names[n]);
    }
  }

  /** A list over prefix-free names is read off its concatenation from the left. */
  lemma {:induction false} DecodesUniquely(columns: set<string>, a: seq<string>, b: seq<string>)
    requires PrefixFree(columns) && "" !in columns && Over(columns, a) && Over(columns, b) && SameText(a, b)
    ensures a == b
  {
    if a != [] {
      ConcatFront(a);
    }
    if b != [] {
      ConcatFront(b);
    }
    if a != [] && b != [] {
      HeadsComparable(a[0], Concat(a[1..]), b[0], Concat(b[1..]));
      assert a[0] in columns && b[0] in columns;
      assert a[0] == b[0];
      assert Concat(a[1..]) == Concat(a)[|a[0]|..] == Concat(b)[|b[0]|..] == Concat(b[1..]);
      DecodesUniquely(columns, a[1..], b[1..]);
      assert a == [a[0]] + a[1..] && b == [b[0]] + b[1..];
    }
  }

  lemma HeadsComparable(x: string, s: string, y: string, t: string)
    requires x + s == y + t
    ensures x <= y || y <= x
  {
    if |x| <= |y| {
      assert x == (x + s)[..|x|] == (y + t)[..|x|] == y[..|x|];
    } else {
      assert y == (y + t)[..|y|] == (x + s)[..|y|] == x[..|y|];
    }
  }

  lemma PrefixFreeDecodes(columns: set<string>)
    requires PrefixFree(columns) && "" !in columns
    ensures Decodable(columns)
  {
    forall a, b | Over(columns, a) && Over(columns, b) && SameText(a, b) ensures a == b {
      DecodesUniquely(columns, a, b);
    }
  }

  // ---------- taking keys apart ----------

  lemma {:induction false} DigitsAreDigits(n: nat)
    ensures Digits(n) != "" && forall i :: 0 <= i < |Digits(n)| ==> IsDigit(Digits(n)[i])
    ensures |Digits(n)| == 1 <==> n < 10
  {
    if n >= 10 {
      DigitsAreDigits(n / 10);
    }
  }

  lemma {:induction false} DigitsInjective(m: nat, n: nat)
    requires Digits(m) == Digits(n)
    ensures m == n
  {
    DigitsAreDigits(m);
    DigitsAreDigits(n);
    if m < 10 {
      assert Digits(m)[0] == Digits(n)[0];
    } else {
      var a, b := Digits(m), Digits(n);
      assert a[..|a| - 1] == Digits(m / 10) && b[..|b| - 1] == Digits(n / 10);
      assert a[|a| - 1] == Digit(m % 10) && b[|b| - 1] == Digit(n % 10);
      DigitsInjective(m / 10, n / 10);
    }
  }

  lemma ItoaShape(n: int)
    ensures Itoa(n) != "" && '.' !in Itoa(n)
    ensures forall i :: 0 < i < |Itoa(n)| ==> IsDigit(Itoa(n)[i])
    ensures Itoa(n)[0] == '-' <==> n < 0
  {
    DigitsAreDigits(if n < 0 then -n else n);
    assert n < 0 ==> forall i :: 0 < i < |Itoa(n)| ==> Itoa(n)[i] == Digits(-n)[i - 1];
  }

  lemma ItoaInjective(m: int, n: int)
    requires Itoa(m) == Itoa(n)
    ensures m == n
  {
    ItoaShape(m);
    ItoaShape(n);
    if m < 0 {
      assert Itoa(m)[1..] == Digits(-m) && Itoa(n)[1..] == Digits(-n);
      DigitsInjective(-m, -n);
    } else {
      DigitsInjective(m, n);
    }
  }

  predicate NoDigitFirst(s: string) {
    s == "" || !IsDigit(s[0])
  }

  lemma DigitFollows(m: int, s: string, n: int, t: string)
    requires Itoa(m) + s == Itoa(n) + t && |Itoa(m)| < |Itoa(n)|
    ensures !NoDigitFirst(s)
  {
    ItoaShape(m);
    ItoaShape(n);
    var k := |Itoa(m)|;
    assert s != "" && s[0] == (Itoa(m) + s)[k] == (Itoa(n) + t)[k] == Itoa(n)[k];
  }

  /** The number in front ends where the digits end. */
  lemma NumberEnds(m: int, s: string, n: int, t: string)
    requires Itoa(m) + s == Itoa(n) + t && NoDigitFirst(s) && NoDigitFirst(t)
    ensures m == n && s == t
  {
    if |Itoa(m)| < |Itoa(n)| {
      DigitFollows(m, s, n, t);
    } else if |Itoa(n)| < |Itoa(m)| {
      DigitFollows(n, t, m, s);
    } else {
      SameLengthHeads(Itoa(m), s, Itoa(n), t);
      ItoaInjective(m, n);
    }
  }

  lemma SameLengthHeads(x: string, s: string, y: string, t: string)
    requires x + s == y + t && |x| == |y|
    ensures x == y && s == t
  {
    assert x == (x + s)[..|x|] && y == (y + t)[..|y|] && s == (x + s)[|x|..] && t == (y + t)[|y|..];
  }

  lemma DotInside(x: string, s: string, y: string, t: string)
    requires x + "." + s == y + "." + t && |x| < |y|
    ensures '.' in y
  {
    assert y[|x|] == (y + "." + t)[|x|] == (x + "." + s)[|x|] == '.';
  }

  /** A separator ends the part before it. */
  lemma DotSplits(x: string, s: string, y: string, t: string)
    requires x + "." + s == y + "." + t && '.' !in x && '.' !in y
    ensures x == y && s == t
  {
    if |x| < |y| {
      DotInside(x, s, y, t);
    } else if |y| < |x| {
      DotInside(y, t, x, s);
    } else {
      assert x + "." + s == x + ("." + s) && y + "." + t == y + ("." + t);
      SameLengthHeads(x, "." + s, y, "." + t);
      SameLengthHeads(".", s, ".", t);
    }
  }

  lemma {:induction false} ConcatPlain(columns: set<string>, names: seq<string>)
    requires AllPlain(columns) && Over(columns, names)
    ensures '.' !in Concat(names) && NoDigitFirst(Concat(names)) && (Concat(names) == "" <==> names == [])
  {
    if names != [] {
      var n := |names| - 1;
      ConcatPlain(columns, names[..n]);
      assert names[n] in columns;
    }
  }

  lemma TextShape(columns: set<string>, cols: Columns)
    requires AllPlain(columns) && Over(columns, cols.names)
    ensures '.' !in ColumnsText(cols)
  {
    ItoaShape(cols.kind);
    ConcatPlain(columns, cols.names);
  }

  lemma SameColumns(columns: set<string>, a: Columns, b: Columns)
    requires AllPlain(columns) && Decodable(columns) && Over(columns, a.names) && Over(columns, b.names)
    requires ColumnsText(a) == ColumnsText(b)
    ensures a == b
  {
    ConcatPlain(columns, a.names);
    ConcatPlain(columns, b.names);
    NumberEnds(a.kind, Concat(a.names), b.kind, Concat(b.names));
    assert SameText(a.names, b.names);
  }

  lemma DotIffDefaults(columns: set<string>, cols: Columns, nz: seq<string>)
    requires AllPlain(columns) && Over(columns, cols.names)
    ensures '.' in CacheKey(cols, nz) <==> nz != []
  {
    TextShape(columns, cols);
    if nz != [] {
      assert CacheKey(cols, nz)[|ColumnsText(cols)|] == '.';
    } else {
      assert CacheKey(cols, nz) == ColumnsText(cols);
    }
  }

  /** A key tells where the columns end and the defaults begin. */
  lemma CacheKeyParts(columns: set<string>, a: Columns, m: seq<string>, b: Columns, n: seq<string>)
    requires AllPlain(columns) && Over(columns, a.names) && Over(columns, b.names)
    requires CacheKey(a, m) == CacheKey(b, n)
    ensures ColumnsText(a) == ColumnsText(b) && Concat(m) == Concat(n)
  {
    DotIffDefaults(columns, a, m);
    DotIffDefaults(columns, b, n);
    var x, y := ColumnsText(a), ColumnsText(b);
    if m == [] {
      assert CacheKey(a, m) == x + "" == x && CacheKey(b, n) == y + "" == y;
    } else {
      TextShape(columns, a);
      TextShape(columns, b);
      assert x + ("." + Concat(m)) == x + "." + Concat(m) && y + ("." + Concat(n)) == y + "." + Concat(n);
      DotSplits(x, Concat(m), y, Concat(n));
    }
  }

  /** The key of makeCacheKey holds the kind, both lists and whether the second is empty. */
  lemma CacheKeyInjective(columns: set<string>, a: Columns, m: seq<string>, b: Columns, n: seq<string>)
    requires AllPlain(columns) && Decodable(columns)
    requires Over(columns, a.names) && Over(columns, m) && Over(columns, b.names) && Over(columns, n)
    requires CacheKey(a, m) == CacheKey(b, n)
    ensures a == b && m == n
  {
    CacheKeyParts(columns, a, m, b, n);
    SameColumns(columns, a, b);
    assert SameText(m, n);
  }

  lemma UpsertKeyInjective(columns: set<string>, r: Request, q: Request)
    requires AllPlain(columns) && Decodable(columns) && OverNames(columns, r) && OverNames(columns, q)
    requires r.Upsert? && q.Upsert? && r.opts == q.opts && Slot(r) == Slot(q)
    ensures r == q
  {
    var rIns := ColumnsText(r.insert) + "." + Concat(r.nzDefaults);
    var qIns := ColumnsText(q.insert) + "." + Concat(q.nzDefaults);
    var rUpd := ColumnsText(r.update) + "." + rIns;
    var qUpd := ColumnsText(q.update) + "." + qIns;
    var rCon := Concat(r.conflict) + "." + rUpd;
    var qCon := Concat(q.conflict) + "." + qUpd;
    SameLengthHeads(if r.updateOnConflict then "t" else "f", "." + rCon,
                    if q.updateOnConflict then "t" else "f", "." + qCon);
    SameLengthHeads(".", rCon, ".", qCon);
    ConcatPlain(columns, r.conflict);
    ConcatPlain(columns, q.conflict);
    DotSplits(Concat(r.conflict), rUpd, Concat(q.conflict), qUpd);
    TextShape(columns, r.update);
    TextShape(columns, q.update);
    DotSplits(ColumnsText(r.update), rIns, ColumnsText(q.update), qIns);
    TextShape(columns, r.insert);
    TextShape(columns, q.insert);
    DotSplits(ColumnsText(r.insert), Concat(r.nzDefaults), ColumnsText(q.insert), Concat(q.nzDefaults));
    SameColumns(columns, r.update, q.update);
    SameColumns(columns, r.insert, q.insert);
    assert SameText(r.conflict, q.conflict) && SameText(r.nzDefaults, q.nzDefaults);
  }

  // ---------- what keys distinguish ----------

  datatype Table = InsertCache | UpdateCache | UpsertCache

  /** Where a request's plan is kept: one cache per operation, and the key within it. */
  function Slot(r: Request): (Table, string) {
    match r
    case Insert(columns, nz) => (InsertCache, CacheKey(columns, nz))
    case Update(columns) => (UpdateCache, CacheKey(columns, []))
    case Upsert(up, conflict, update, insert, nz, _) => (UpsertCache, UpsertKey(up, conflict, update, insert, nz))
  }

  ghost predicate OverNames(columns: set<string>, r: Request) {
    match r
    case Insert(cols, nz) => Over(columns, cols.names) && Over(columns, nz)
    case Update(cols) => Over(columns, cols.names)
    case Upsert(_, conflict, update, insert, nz, _) =>
      Over(columns, conflict) && Over(columns, update.names) && Over(columns, insert.names) && Over(columns, nz)
  }

  /** Requests over the columns that pass no options with an upsert. */
  ghost predicate Usual(columns: set<string>, r: Request) {
    OverNames(columns, r) && (r.Upsert? ==> r.opts == NO_OPTIONS)
  }

  ghost predicate SlotsDistinguish(columns: set<string>) {
    forall r, q :: Usual(columns, r) && Usual(columns, q) && Slot(r) == Slot(q) ==> r == q
  }

  lemma SlotInjective(columns: set<string>, r: Request, q: Request)
    requires AllPlain(columns) && Decodable(columns) && Usual(columns, r) && Usual(columns, q) && Slot(r) == Slot(q)
    ensures r == q
  {
    match r {
    case Insert(cols, nz) => CacheKeyInjective(columns, cols, nz, q.columns, q.nzDefaults);
    case Update(cols) => CacheKeyInjective(columns, cols, [], q.columns, []);
    case Upsert(_, _, _, _, _, _) => UpsertKeyInjective(columns, r, q);
    }
  }

  /** For names without digit in front and without separator, keys tell all requests apart exactly when
      the names can be read back from their concatenation. */
  lemma SlotsDistinguishIff(columns: set<string>)
    requires AllPlain(columns)
    ensures SlotsDistinguish(columns) <==> Decodable(columns)
  {
    if Decodable(columns) {
      forall r, q | Usual(columns, r) && Usual(columns, q) && Slot(r) == Slot(q) ensures r == q {
        SlotInjective(columns, r, q);
      }
    }
    if SlotsDistinguish(columns) {
      forall a, b | Over(columns, a) && Over(columns, b) && SameText(a, b) ensures a == b {
        var r, q := Update(Columns(0, a)), Update(Columns(0, b));
        assert Usual(columns, r) && Usual(columns, q) && Slot(r) == Slot(q);
      }
    }
  }

  const TRANSACTION_COLUMNS := ["tx_hash", "tx_status", "block_hash", "block_number", "from_address", "to_address",
                                "contract_address", "logs_count", "input", "value"]

  /** The letters that tell the names apart. */
  lemma DistinctLetters(i: nat, j: nat)
    requires i < |TRANSACTION_COLUMNS| && j < |TRANSACTION_COLUMNS|
    requires TRANSACTION_COLUMNS[i] <= TRANSACTION_COLUMNS[j]
    ensures i == j
  {
    var a, b := TRANSACTION_COLUMNS[i], TRANSACTION_COLUMNS[j];
    assert a[0] == b[0] && a[1] == b[1] && a[3] == b[3] && (|a| > 6 ==> a[6] == b[6]);
  }

  /** The caches of the transactions table tell all its requests apart. */
  lemma TransactionColumnsSuffice(columns: set<string>)
    requires columns == set i | 0 <= i < |TRANSACTION_COLUMNS| :: TRANSACTION_COLUMNS[i]
    ensures AllPlain(columns) && SlotsDistinguish(columns)
  {
    forall a, b | a in columns && b in columns && a <= b ensures a == b {
      var i :| 0 <= i < |TRANSACTION_COLUMNS| && a == TRANSACTION_COLUMNS[i];
      var j :| 0 <= j < |TRANSACTION_COLUMNS| && b == TRANSACTION_COLUMNS[j];
      DistinctLetters(i, j);
    }
    PrefixFreeDecodes(columns);
    SlotsDistinguishIff(columns);
  }

  lemma ConcatOne(a: string)
    ensures Concat([a]) == a
  {
    assert [a][..0] == [];
  }

  /** A name that is another name followed by a name makes two different requests share a slot. */
  lemma ExtendedNamesCollide(columns: set<string>, a: string, b: string)
    requires a in columns && b in columns && a + b in columns
    ensures !SlotsDistinguish(columns)
  {
    var r, q := Update(Columns(0, [a + b])), Update(Columns(0, [a, b]));
    ConcatOne(a + b);
    ConcatOne(a);
    assert [a, b][..1] == [a];
    assert Usual(columns, r) && Usual(columns, q) && Slot(r) == Slot(q);
    assert |r.columns.names| != |q.columns.names|;
  }
}
