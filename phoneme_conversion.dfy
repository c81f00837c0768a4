/**
 * The phoneme classifier: ARPAbet/CMU phoneme symbols to viseme names, with a
 * nearest-key fallback by Levenshtein edit distance for symbols the table
 * does not list.
 */
module PhonemeConversion {
  import opened Wrappers
  import opened Tables

  /**
   * The closed viseme alphabet: the values of `phonemeMap`, whose names are
   * the keys of the animator's channel table.
   */
  datatype Viseme = AA | EE | OO | FV | TH | MBP | SSH | R | L | D | T | N | G | K | Y
  {
    /** The string the source uses for this viseme. */
    function Name(): string {
      match this
      case AA => "AA"
      case EE => "EE"
      case OO => "OO"
      case FV => "F/V"
      case TH => "TH"
      case MBP => "M/B/P"
      case SSH => "S/SH"
      case R => "R"
      case L => "L"
      case D => "D"
      case T => "T"
      case N => "N"
      case G => "G"
      case K => "K"
      case Y => "Y"
    }
  }

  /** The strings `convertPhonemes` hands on to the animator. */
  function Names(vs: seq<Viseme>): (names: seq<string>)
    ensures |names| == |vs|
  {
    seq(|vs|, i requires 0 <= i < |vs| => vs[i].Name())
  }

  /** `phonemeMap`, in source (insertion) order: 31 symbols onto 15 visemes. */
  const PhonemeMap: seq<(string, Viseme)> := [
    ("AA", AA), ("AO", AA), ("AH", AA),
    ("IY", EE), ("IH", EE), ("EY", EE), ("EH", EE),
    ("UW", OO), ("UH", OO), ("OW", OO),
    ("F", FV), ("V", FV),
    ("TH", TH), ("DH", TH),
    ("M", MBP), ("B", MBP), ("P", MBP),
    ("S", SSH), ("Z", SSH), ("SH", SSH), ("CH", SSH), ("JH", SSH),
    ("W", OO),
    ("R", R),
    ("L", L),
    ("D", D),
    ("T", T),
    ("N", N),
    ("G", G),
    ("K", K),
    ("Y", Y)
  ]

  // The keys are shown distinct through their codes, block by block, each block
  // a small proof of its own.
  lemma CodesDistinct0To8()
    ensures forall i, j :: 0 <= i < j < 8 ==> KeyCode(PhonemeMap[i].0) != KeyCode(PhonemeMap[j].0)
  {
  }

  lemma CodesDistinct8To16()
    ensures forall i, j :: 8 <= i < j < 16 ==> KeyCode(PhonemeMap[i].0) != KeyCode(PhonemeMap[j].0)
  {
  }

  lemma CodesDistinct16To24()
    ensures forall i, j :: 16 <= i < j < 24 ==> KeyCode(PhonemeMap[i].0) != KeyCode(PhonemeMap[j].0)
  {
  }

  lemma CodesDistinct24To31()
    ensures forall i, j :: 24 <= i < j < 31 ==> KeyCode(PhonemeMap[i].0) != KeyCode(PhonemeMap[j].0)
  {
  }

  lemma CodesApart0To8And8To16()
    ensures forall i, j :: 0 <= i < 8 && 8 <= j < 16 ==> KeyCode(PhonemeMap[i].0) != KeyCode(PhonemeMap[j].0)
  {
  }

  lemma CodesApart0To8And16To24()
    ensures forall i, j :: 0 <= i < 8 && 16 <= j < 24 ==> KeyCode(PhonemeMap[i].0) != KeyCode(PhonemeMap[j].0)
  {
  }

  lemma CodesApart0To8And24To31()
    ensures forall i, j :: 0 <= i < 8 && 24 <= j < 31 ==> KeyCode(PhonemeMap[i].0) != KeyCode(PhonemeMap[j].0)
  {
  }

  lemma CodesApart8To16And16To24()
    ensures forall i, j :: 8 <= i < 16 && 16 <= j < 24 ==> KeyCode(PhonemeMap[i].0) != KeyCode(PhonemeMap[j].0)
  {
  }

  lemma CodesApart8To16And24To31()
    ensures forall i, j :: 8 <= i < 16 && 24 <= j < 31 ==> KeyCode(PhonemeMap[i].0) != KeyCode(PhonemeMap[j].0)
  {
  }

  lemma CodesApart16To24And24To31()
    ensures forall i, j :: 16 <= i < 24 && 24 <= j < 31 ==> KeyCode(PhonemeMap[i].0) != KeyCode(PhonemeMap[j].0)
  {
  }

  /** The table has distinct keys, as an object literal does, and every key is non-empty. */
  lemma PhonemeMapWellFormed()
    ensures |PhonemeMap| == 31
    ensures DistinctKeys(PhonemeMap)
    ensures forall i :: 0 <= i < |PhonemeMap| ==> |PhonemeMap[i].0| >= 1
  {
    CodesDistinct0To8();
    CodesDistinct8To16();
    CodesDistinct16To24();
    CodesDistinct24To31();
    CodesApart0To8And8To16();
    CodesApart0To8And16To24();
    CodesApart0To8And24To31();
    CodesApart8To16And16To24();
    CodesApart8To16And24To31();
    CodesApart16To24And24To31();
  }

  // ---------------------------------------------------------------------------
  // Edit distance

  function Min3(x: nat, y: nat, z: nat): nat {
    if x <= y && x <= z then x else if y <= z then y else z
  }

  /** Substitution cost of the last characters: 0 when equal, else 1. */
  function Cost(x: char, y: char): nat {
    if x == y then 0 else 1
  }

  /**
   * The recursive edit distance over deletion, insertion and substitution,
   * peeling the last character of either string.
   */
  function Dist(a: string, b: string): nat
    decreases |a| + |b|
  {
    if |a| == 0 then |b|
    else if |b| == 0 then |a|
    else Min3(Dist(a[..|a| - 1], b) + 1,
              Dist(a, b[..|b| - 1]) + 1,
              Dist(a[..|a| - 1], b[..|b| - 1]) + Cost(a[|a| - 1], b[|b| - 1]))
  }

  /** One cell of the dynamic-programming table, stated on prefixes. */
  lemma DistStep(a: string, b: string, i: nat, j: nat)
    requires 1 <= i <= |a| && 1 <= j <= |b|
    ensures Dist(a[..i], b[..j]) ==
            Min3(Dist(a[..i - 1], b[..j]) + 1,
                 Dist(a[..i], b[..j - 1]) + 1,
                 Dist(a[..i - 1], b[..j - 1]) + Cost(a[i - 1], b[j - 1]))
  {
    assert a[..i][..i - 1] == a[..i - 1];
    assert b[..j][..j - 1] == b[..j - 1];
  }

  /**
   * `levenshtein(a, b)`: fills an (|a|+1) x (|b|+1) table row by row and
   * returns its last cell, which is the recursive edit distance.
   */
  method Levenshtein(a: string, b: string) returns (d: nat)
    ensures d == Dist(a, b)
    ensures a == [] ==> d == |b|
    ensures b == [] ==> d == |a|
  {
    var dp := new nat[|a| + 1, |b| + 1];
    for i := 0 to |a| + 1
      invariant forall k :: 0 <= k < i ==> dp[k, 0] == k
    {
      dp[i, 0] := i;
    }
    for j := 0 to |b| + 1
      invariant forall k :: 0 <= k <= |a| ==> dp[k, 0] == k
      invariant forall k :: 0 <= k < j ==> dp[0, k] == k
    {
      dp[0, j] := j;
    }
    // Each row is computed from the one above it, so only the last finished row is tracked.
    for i := 1 to |a| + 1
      invariant forall y :: 0 <= y <= |b| ==> dp[i - 1, y] == Dist(a[..i - 1], b[..y])
      invariant forall k :: i <= k <= |a| ==> dp[k, 0] == k
    {
      FillRow(dp, a, b, i);
    }
    d := dp[|a|, |b|];
    assert a[..|a|] == a && b[..|b|] == b;
  }

  /**
   * The inner loop of `levenshtein` for row `i`: each cell from the one above,
   * the one to its left and the one above-left. Column 0 below row `i` is kept.
   */
  method FillRow(dp: array2<nat>, a: string, b: string, i: nat)
    requires dp.Length0 == |a| + 1 && dp.Length1 == |b| + 1 && 1 <= i <= |a|
    requires forall y :: 0 <= y <= |b| ==> dp[i - 1, y] == Dist(a[..i - 1], b[..y])
    requires forall k :: i <= k <= |a| ==> dp[k, 0] == k
    modifies dp
    ensures forall y :: 0 <= y <= |b| ==> dp[i, y] == Dist(a[..i], b[..y])
    ensures forall k :: i < k <= |a| ==> dp[k, 0] == k
    ensures forall x, y :: 0 <= x < dp.Length0 && 0 <= y < dp.Length1 && x != i ==> dp[x, y] == old(dp[x, y])
  {
    for j := 1 to |b| + 1
      invariant forall y :: 0 <= y <= |b| ==> dp[i - 1, y] == Dist(a[..i - 1], b[..y])
      invariant forall y :: 0 <= y < j ==> dp[i, y] == Dist(a[..i], b[..y])
      invariant forall k :: i < k <= |a| ==> dp[k, 0] == k
      invariant forall x, y :: 0 <= x < dp.Length0 && 0 <= y < dp.Length1 && x != i ==> dp[x, y] == old(dp[x, y])
    {
      FillCell(dp, a, b, i, j);
    }
  }

  /** One cell of the table, from the cells above, to the left and above-left. */
  method FillCell(dp: array2<nat>, a: string, b: string, i: nat, j: nat)
    requires dp.Length0 == |a| + 1 && dp.Length1 == |b| + 1 && 1 <= i <= |a| && 1 <= j <= |b|
    requires dp[i - 1, j] == Dist(a[..i - 1], b[..j])
    requires dp[i, j - 1] == Dist(a[..i], b[..j - 1])
    requires dp[i - 1, j - 1] == Dist(a[..i - 1], b[..j - 1])
    modifies dp
    ensures dp[i, j] == Dist(a[..i], b[..j])
    ensures forall x, y :: 0 <= x < dp.Length0 && 0 <= y < dp.Length1 && (x != i || y != j) ==> dp[x, y] == old(dp[x, y])
  {
    var cost := if a[i - 1] == b[j - 1] then 0 else 1;
    dp[i, j] := Min3(dp[i - 1, j] + 1, dp[i, j - 1] + 1, dp[i - 1, j - 1] + cost);
    DistStep(a, b, i, j);
  }

  lemma {:induction false} DistSelf(a: string)
    ensures Dist(a, a) == 0
    decreases |a|
  {
    if |a| > 0 {
      DistSelf(a[..|a| - 1]);
    }
  }

  lemma {:induction false} DistAtMostLonger(a: string, b: string)
    ensures Dist(a, b) <= if |a| >= |b| then |a| else |b|
    decreases |a| + |b|
  {
    if |a| > 0 && |b| > 0 {
      DistAtMostLonger(a[..|a| - 1], b[..|b| - 1]);
    }
  }

  lemma {:induction false} DistAtLeastLengthGap(a: string, b: string)
    ensures Dist(a, b) >= |a| - |b| && Dist(a, b) >= |b| - |a|
    decreases |a| + |b|
  {
    if |a| > 0 && |b| > 0 {
      DistAtLeastLengthGap(a[..|a| - 1], b);
      DistAtLeastLengthGap(a, b[..|b| - 1]);
      DistAtLeastLengthGap(a[..|a| - 1], b[..|b| - 1]);
    }
  }

  /** The distance is zero exactly for equal strings. */
  lemma {:induction false} DistZeroIffEqual(a: string, b: string)
    ensures Dist(a, b) == 0 <==> a == b
    decreases |a| + |b|
  {
    if a == b {
      DistSelf(a);
    } else if |a| > 0 && |b| > 0 && Dist(a, b) == 0 {
      DistAtLeastLengthGap(a[..|a| - 1], b);
      DistAtLeastLengthGap(a, b[..|b| - 1]);
      DistZeroIffEqual(a[..|a| - 1], b[..|b| - 1]);
    }
  }

  /** With no character in common, every edit is one per character of the longer string. */
  lemma {:induction false} DistDisjoint(a: string, b: string)
    requires forall x, y :: 0 <= x < |a| && 0 <= y < |b| ==> a[x] != b[y]
    ensures Dist(a, b) == if |a| >= |b| then |a| else |b|
    decreases |a| + |b|
  {
    DistAtMostLonger(a, b);
    if |a| > 0 && |b| > 0 {
      DistDisjoint(a[..|a| - 1], b);
      DistDisjoint(a, b[..|b| - 1]);
      DistDisjoint(a[..|a| - 1], b[..|b| - 1]);
    }
  }

  // ---------------------------------------------------------------------------
  // Classification

  /** The edit distance from `sym` to every key of `table`, in table order. */
  function KeyDistances(table: seq<(string, Viseme)>, sym: string): (ds: seq<nat>) {
    seq(|table|, j requires 0 <= j < |table| => Dist(sym, table[j].0))
  }

  /**
   * Among the first `n` distances, the index of the first minimal one (a later
   * entry replaces the current best only when strictly smaller).
   */
  function FirstMin(ds: seq<nat>, n: nat): (k: nat)
    requires 1 <= n <= |ds|
    ensures k < n
    ensures forall j :: 0 <= j < n ==> ds[k] <= ds[j]
    ensures forall j :: 0 <= j < k ==> ds[k] < ds[j]
  {
    if n == 1 then 0
    else
      var k := FirstMin(ds, n - 1);
      if ds[n - 1] < ds[k] then n - 1 else k
  }

  /**
   * What `findClosestPhoneme` returns for `sym` when it closes over `table`:
   * the viseme stored under `sym`, else the viseme of the first key at minimal
   * distance, else (only for an empty table) the seed "AA".
   */
  function ClosestIn(table: seq<(string, Viseme)>, sym: string): Viseme {
    match Lookup(table, sym)
    case Some(v) => v
    case None => if |table| == 0 then AA else table[FirstMin(KeyDistances(table, sym), |table|)].1
  }

  /** The classifier of the source, over its own table. */
  function Classify(sym: string): Viseme {
    ClosestIn(PhonemeMap, sym)
  }

  /** A listed symbol is classified by its own entry, with no distance involved. */
  lemma ClosestListed(table: seq<(string, Viseme)>, i: nat)
    requires DistinctKeys(table) && i < |table|
    ensures ClosestIn(table, table[i].0) == table[i].1
  {
    LookupDistinct(table, i);
  }

  /**
   * An unlisted symbol gets the viseme of the first key, in table order, at
   * minimal edit distance: no key is closer, and every earlier key is farther.
   */
  lemma ClosestUnlisted(table: seq<(string, Viseme)>, sym: string)
    requires !HasKey(table, sym) && |table| > 0
    ensures exists k :: (0 <= k < |table| && ClosestIn(table, sym) == table[k].1
      && (forall j :: 0 <= j < |table| ==> Dist(sym, table[k].0) <= Dist(sym, table[j].0))
      && (forall j :: 0 <= j < k ==> Dist(sym, table[k].0) < Dist(sym, table[j].0)))
  {
    var ds := KeyDistances(table, sym);
    var k := FirstMin(ds, |table|);
    forall j | 0 <= j < |table|
      ensures Dist(sym, table[k].0) <= Dist(sym, table[j].0)
      ensures j < k ==> Dist(sym, table[k].0) < Dist(sym, table[j].0)
    {
      assert ds[k] == Dist(sym, table[k].0) && ds[j] == Dist(sym, table[j].0);
    }
  }

  /** The result is a value of the table; the "AA" seed survives only an empty table. */
  lemma ClosestIsTableValue(table: seq<(string, Viseme)>, sym: string)
    ensures |table| == 0 ==> ClosestIn(table, sym) == AA
    ensures |table| > 0 ==> exists k :: 0 <= k < |table| && ClosestIn(table, sym) == table[k].1
  {
    if |table| > 0 && !HasKey(table, sym) {
      ClosestUnlisted(table, sym);
    }
  }

  datatype Distance = Infinity | Finite(n: nat)

  predicate Below(d: nat, m: Distance) {
    m.Infinity? || d < m.n
  }

  /**
   * `findClosestPhoneme`, closing over `table` (the source's `phonemeMap`):
   * a direct hit returns at once; otherwise every key is scanned and the first
   * strictly closer key replaces the best so far, starting from the seed "AA"
   * at distance Infinity.
   */
  method FindClosestPhoneme(table: seq<(string, Viseme)>, sym: string) returns (viseme: Viseme)
    ensures viseme == ClosestIn(table, sym)
  {
    var direct := Lookup(table, sym);
    if direct.Some? {
      return direct.value;
    }
    ghost var ds := KeyDistances(table, sym);
    var closestMatch := AA;
    var minDistance := Infinity;
    for i := 0 to |table|
      invariant i == 0 ==> minDistance == Infinity && closestMatch == AA
      invariant i > 0 ==> minDistance == Finite(ds[FirstMin(ds, i)])
      invariant i > 0 ==> closestMatch == table[FirstMin(ds, i)].1
    {
      var distance := Levenshtein(sym, table[i].0);
      assert distance == ds[i];
      assert i > 0 ==> FirstMin(ds, i + 1) == if ds[i] < ds[FirstMin(ds, i)] then i else FirstMin(ds, i);
      if Below(distance, minDistance) {
        minDistance := Finite(distance);
        closestMatch := table[i].1;
      }
    }
    viseme := closestMatch;
    assert Lookup(table, sym).None?;
  }

  /** `convertPhonemes`: classifies each symbol, position by position. */
  function ConvertPhonemes(symbols: seq<string>): (visemes: seq<Viseme>)
    ensures |visemes| == |symbols|
  {
    seq(|symbols|, i requires 0 <= i < |symbols| => Classify(symbols[i]))
  }


  /** The visemes stored at the given entries of the source's table. */
  function EntryVisemes(idx: seq<nat>): seq<Viseme>
    requires forall k :: 0 <= k < |idx| ==> idx[k] < |PhonemeMap|
  {
    seq(|idx|, k requires 0 <= k < |idx| => PhonemeMap[idx[k]].1)
  }

  /** Symbols that are all keys of the source's table convert entry by entry, with no distance involved. */
  lemma ConvertListed(symbols: seq<string>, idx: seq<nat>)
    requires |idx| == |symbols|
    requires forall k :: 0 <= k < |idx| ==> idx[k] < |PhonemeMap| && symbols[k] == PhonemeMap[idx[k]].0
    ensures ConvertPhonemes(symbols) == EntryVisemes(idx)
  {
    PhonemeMapWellFormed();
    forall k | 0 <= k < |idx|
      ensures Classify(symbols[k]) == PhonemeMap[idx[k]].1
    {
      LookupDistinct(PhonemeMap, idx[k]);
    }
  }

  lemma ExampleEntries(idx: seq<nat>)
    requires idx == [13, 2, 10, 4, 19]
    ensures EntryVisemes(idx) == [TH, AA, FV, EE, SSH]
  {
  }

  /** The example in the source: `["DH", "AH", "F", "IH", "SH"]` converts to TH, AA, F/V, EE, S/SH. */
  lemma ConvertExample(symbols: seq<string>)
    requires symbols == ["DH", "AH", "F", "IH", "SH"]
    ensures ConvertPhonemes(symbols) == [TH, AA, FV, EE, SSH]
  {
    var idx := [13, 2, 10, 4, 19];
    ConvertListed(symbols, idx);
    ExampleEntries(idx);
  }

  /**
   * For an unlisted symbol, any key that is at minimal distance and strictly
   * closer than every earlier key is the one whose viseme is returned.
   */
  lemma ClassifyUnlistedAt(sym: string, k: nat)
    requires !HasKey(PhonemeMap, sym) && k < |PhonemeMap|
    requires forall j :: 0 <= j < |PhonemeMap| ==> Dist(sym, PhonemeMap[k].0) <= Dist(sym, PhonemeMap[j].0)
    requires forall j :: 0 <= j < k ==> Dist(sym, PhonemeMap[k].0) < Dist(sym, PhonemeMap[j].0)
    ensures Classify(sym) == PhonemeMap[k].1
  {
    var ds := KeyDistances(PhonemeMap, sym);
    var m := FirstMin(ds, |PhonemeMap|);
    assert ds[m] == Dist(sym, PhonemeMap[m].0);
    assert ds[k] == Dist(sym, PhonemeMap[k].0);
    assert m == k;
    assert Lookup(PhonemeMap, sym).None?;
  }

  /**
   * The empty symbol (what splitting on a doubled space yields) is unlisted;
   * its distance to a key is the key's length, so the first one-letter key,
   * "F", wins and the viseme is F/V.
   */
  lemma ClassifyEmptySymbol(sym: string)
    requires sym == ""
    ensures Classify(sym) == FV
  {
    PhonemeMapWellFormed();
    assert PhonemeMap[10].0 == "F";
    assert forall j :: 0 <= j < 10 ==> |PhonemeMap[j].0| == 2;
    ClassifyUnlistedAt(sym, 10);
  }

  /** Apart from entry 18, "Z", no key is longer than two letters or contains a Z. */
  lemma KeysWithoutZ()
    ensures forall j :: 0 <= j < |PhonemeMap| && j != 18 ==>
      |PhonemeMap[j].0| <= 2 && forall y :: 0 <= y < |PhonemeMap[j].0| ==> PhonemeMap[j].0[y] != 'Z'
  {
  }

  /**
   * The unknown symbol of the source's example, "ZZZ": every key but "Z"
   * shares no letter with it and is at distance 3, "Z" is at distance 2, so
   * the fallback is deterministic and yields S/SH.
   */
  lemma ClassifyZZZ(sym: string)
    requires sym == "ZZZ"
    ensures Classify(sym) == SSH
  {
    PhonemeMapWellFormed();
    assert PhonemeMap[18] == ("Z", SSH);
    assert !HasKey(PhonemeMap, sym);
    // "Z" is two deletions away.
    DistAtLeastLengthGap(sym, "Z");
    DistSelf("Z");
    assert sym[..2][..1] == "Z" && sym[..2] == "ZZ";
    assert Dist(sym[..2], "Z") <= Dist("Z", "Z") + 1;
    assert Dist(sym, "Z") <= Dist(sym[..2], "Z") + 1;
    assert Dist(sym, PhonemeMap[18].0) == 2;
    // Every other key is at distance max(3, |key|) = 3.
    KeysWithoutZ();
    forall j | 0 <= j < |PhonemeMap| && j != 18
      ensures Dist(sym, PhonemeMap[j].0) == 3
    {
      DistDisjoint(sym, PhonemeMap[j].0);
    }
    ClassifyUnlistedAt(sym, 18);
  }

  /** The whole example of the source, with its unknown last symbol: TH, AA, F/V, EE, S/SH, S/SH. */
  lemma ConvertSourceExample(symbols: seq<string>)
    requires symbols == ["DH", "AH", "F", "IH", "SH", "ZZZ"]
    ensures ConvertPhonemes(symbols) == [TH, AA, FV, EE, SSH, SSH]
  {
    ConvertExample(symbols[..5]);
    ClassifyZZZ(symbols[5]);
    assert ConvertPhonemes(symbols)[..5] == ConvertPhonemes(symbols[..5]);
  }
}
