/** JSON values as the browser's JSON.parse and Python's json.loads produce them. */
module Json {
  import opened Wrappers
  import Text

  /**
   * Object members are held as they appear in the text, repeated keys
   * included; `Member` and `OwnEntries` give the views the two languages take.
   */
  datatype Json =
    | JNull
    | JBool(b: bool)
    | JNum(n: real)
    | JStr(s: string)
    | JArr(elems: seq<Json>)
    | JObj(members: seq<(string, Json)>)

  /** The value stored under `key`; with a repeated key the last one wins, as in both parsers. */
  function Member(members: seq<(string, Json)>, key: string): (r: Option<Json>)
    ensures r.Some? <==> exists k :: 0 <= k < |members| && members[k].0 == key
    ensures r.Some? ==> exists k :: 0 <= k < |members| && members[k] == (key, r.value)
  {
    if |members| == 0 then None
    else if members[|members| - 1].0 == key then Some(members[|members| - 1].1)
    else Member(members[..|members| - 1], key)
  }

  /** JavaScript truthiness of a parsed value (`x || fallback` picks the fallback when this is false). */
  predicate Truthy(j: Json) {
    match j
    case JNull => false
    case JBool(b) => b
    case JNum(n) => n != 0.0
    case JStr(s) => s != ""
    case _ => true
  }

  // ---------------------------------------------------------------------
  // Own-property order of a parsed object (`Object.keys`, `Object.entries`)

  /** An ECMAScript array index: a canonical decimal numeral below 2^32 - 1. */
  predicate IsArrayIndex(key: string) {
    && |key| > 0
    && Text.AllDigits(key)
    && (key[0] != '0' || |key| == 1)
    && Text.DigitsValue(key) < 0xFFFF_FFFF
  }

  /** The position of the first member named `key`; `|members|` when there is none. */
  function FirstPos(members: seq<(string, Json)>, key: string): (p: nat)
    ensures p <= |members|
    ensures p < |members| ==> members[p].0 == key
    ensures forall i :: 0 <= i < p ==> members[i].0 != key
  {
    if |members| == 0 then 0
    else if members[0].0 == key then 0
    else 1 + FirstPos(members[1..], key)
  }

  /**
   * Where `key` falls in enumeration order: array indices by their value,
   * then every other key by the position of its first occurrence.
   */
  function Rank(members: seq<(string, Json)>, key: string): nat {
    if IsArrayIndex(key) then Text.DigitsValue(key) else 0xFFFF_FFFF + FirstPos(members, key)
  }

  predicate HasKey(members: seq<(string, Json)>, key: string) {
    exists i :: 0 <= i < |members| && members[i].0 == key
  }

  function Names(entries: seq<(string, Json)>): (r: seq<string>)
    ensures |r| == |entries| && forall i :: 0 <= i < |r| ==> r[i] == entries[i].0
  {
    seq(|entries|, i requires 0 <= i < |entries| => entries[i].0)
  }

  predicate DistinctNames(keys: seq<string>) {
    forall i, j :: 0 <= i < j < |keys| ==> keys[i] != keys[j]
  }

  /** The distinct keys in order of first occurrence. */
  function KeysInOrder(members: seq<(string, Json)>): (r: seq<string>)
    ensures forall key :: key in r <==> HasKey(members, key)
    ensures DistinctNames(r)
  {
    if |members| == 0 then []
    else
      var init := KeysInOrder(members[..|members| - 1]);
      var key := members[|members| - 1].0;
      assert forall k :: HasKey(members, k) <==> HasKey(members[..|members| - 1], k) || k == key;
      if key in init then init else init + [key]
  }

  predicate SortedByRank(s: seq<(nat, string)>) {
    forall i, j :: 0 <= i < j < |s| ==> s[i].0 <= s[j].0
  }

  predicate DistinctPairs(s: seq<(nat, string)>) {
    forall i, j :: 0 <= i < j < |s| ==> s[i] != s[j]
  }

  /** Inserts `x` into a rank-sorted sequence, after every element of no greater rank. */
  function InsertByRank(x: (nat, string), s: seq<(nat, string)>): (r: seq<(nat, string)>)
    ensures |r| == |s| + 1
    ensures forall y :: y in r <==> y == x || y in s
  {
    if |s| == 0 then [x]
    else if x.0 < s[0].0 then [x] + s
    else
      var rest := InsertByRank(x, s[1..]);
      assert forall y :: y in s <==> y == s[0] || y in s[1..];
      [s[0]] + rest
  }

  predicate RanksAtLeast(v: nat, s: seq<(nat, string)>) {
    forall k :: 0 <= k < |s| ==> v <= s[k].0
  }

  lemma {:induction false} InsertKeepsSorted(x: (nat, string), s: seq<(nat, string)>)
    requires SortedByRank(s)
    ensures SortedByRank(InsertByRank(x, s))
  {
    if |s| > 0 && x.0 >= s[0].0 {
      var rest := InsertByRank(x, s[1..]);
      InsertKeepsSorted(x, s[1..]);
      InsertKeepsBound(s[0].0, x, s[1..]);
      var r := [s[0]] + rest;
      forall i, j | 0 <= i < j < |r| ensures r[i].0 <= r[j].0 {
        if i == 0 {
          assert r[j] == rest[j - 1];
        } else {
          assert r[i] == rest[i - 1] && r[j] == rest[j - 1];
        }
      }
    }
  }

  lemma {:induction false} InsertKeepsBound(v: nat, x: (nat, string), s: seq<(nat, string)>)
    requires v <= x.0 && RanksAtLeast(v, s)
    ensures RanksAtLeast(v, InsertByRank(x, s))
  {
    if |s| > 0 && x.0 >= s[0].0 {
      InsertKeepsBound(v, x, s[1..]);
      var rest := InsertByRank(x, s[1..]);
      assert InsertByRank(x, s) == [s[0]] + rest;
    }
  }

  lemma {:induction false} InsertKeepsDistinct(x: (nat, string), s: seq<(nat, string)>)
    requires DistinctPairs(s) && x !in s
    ensures DistinctPairs(InsertByRank(x, s))
  {
    if |s| > 0 && x.0 >= s[0].0 {
      var rest := InsertByRank(x, s[1..]);
      InsertKeepsDistinct(x, s[1..]);
      assert s[0] !in s[1..];
      var r := [s[0]] + rest;
      forall i, j | 0 <= i < j < |r| ensures r[i] != r[j] {
        if i == 0 {
          assert r[j] in rest;
        } else {
          assert r[i] == rest[i - 1] && r[j] == rest[j - 1];
        }
      }
    }
  }

  /** Insertion sort by rank: the same elements, in rank order. */
  function SortByRank(s: seq<(nat, string)>): (r: seq<(nat, string)>)
    ensures |r| == |s|
    ensures forall y :: y in r <==> y in s
    ensures SortedByRank(r)
  {
    if |s| == 0 then []
    else
      var rest := SortByRank(s[1..]);
      assert forall y :: y in s <==> y == s[0] || y in s[1..];
      InsertKeepsSorted(s[0], rest);
      InsertByRank(s[0], rest)
  }

  lemma {:induction false} SortKeepsDistinct(s: seq<(nat, string)>)
    requires DistinctPairs(s)
    ensures DistinctPairs(SortByRank(s))
  {
    if |s| > 0 {
      SortKeepsDistinct(s[1..]);
      assert s[0] !in s[1..];
      InsertKeepsDistinct(s[0], SortByRank(s[1..]));
    }
  }

  /** Each distinct key paired with its rank. */
  function RankedKeys(members: seq<(string, Json)>): (r: seq<(nat, string)>)
    ensures forall y :: y in r <==> HasKey(members, y.1) && y.0 == Rank(members, y.1)
    ensures DistinctPairs(r)
  {
    var keys := KeysInOrder(members);
    var r := seq(|keys|, i requires 0 <= i < |keys| => (Rank(members, keys[i]), keys[i]));
    forall y: (nat, string) | HasKey(members, y.1) && y.0 == Rank(members, y.1) ensures y in r {
      var i :| 0 <= i < |keys| && keys[i] == y.1;
      assert r[i] == y;
    }
    r
  }

  /** `Object.keys` of a parsed object: each key once, in strictly increasing rank. */
  function OwnKeys(members: seq<(string, Json)>): (r: seq<string>)
    ensures forall key :: key in r <==> HasKey(members, key)
    ensures forall i, j :: 0 <= i < j < |r| ==> Rank(members, r[i]) < Rank(members, r[j])
  {
    var sorted := SortByRank(RankedKeys(members));
    SortedKeysStrict(members, sorted);
    Seconds(sorted)
  }

  function Seconds(s: seq<(nat, string)>): (r: seq<string>)
    ensures |r| == |s| && forall i :: 0 <= i < |r| ==> r[i] == s[i].1
  {
    seq(|s|, i requires 0 <= i < |s| => s[i].1)
  }

  /** The keys of the rank-sorted pairs: exactly the object's keys, ranks strictly increasing. */
  lemma SortedKeysStrict(members: seq<(string, Json)>, sorted: seq<(nat, string)>)
    requires sorted == SortByRank(RankedKeys(members))
    ensures forall key :: key in Seconds(sorted) <==> HasKey(members, key)
    ensures forall i, j :: 0 <= i < j < |sorted| ==> Rank(members, sorted[i].1) < Rank(members, sorted[j].1)
  {
    var ranked := RankedKeys(members);
    SortKeepsDistinct(ranked);
    SortedKeysCover(members, ranked, sorted);
    forall i, j | 0 <= i < j < |sorted| ensures Rank(members, sorted[i].1) < Rank(members, sorted[j].1) {
      RankPairsStrict(members, sorted[i], sorted[j]);
    }
  }

  lemma SortedKeysCover(members: seq<(string, Json)>, ranked: seq<(nat, string)>, sorted: seq<(nat, string)>)
    requires forall y :: y in ranked <==> HasKey(members, y.1) && y.0 == Rank(members, y.1)
    requires forall y :: y in sorted <==> y in ranked
    ensures forall key :: key in Seconds(sorted) <==> HasKey(members, key)
  {
    var r := Seconds(sorted);
    forall key | HasKey(members, key) ensures key in r {
      var y := (Rank(members, key), key);
      assert y in ranked;
      var i :| 0 <= i < |sorted| && sorted[i] == y;
      assert r[i] == key;
    }
  }

  /** Two different ranked keys of one object never tie on rank. */
  lemma RankPairsStrict(members: seq<(string, Json)>, x: (nat, string), y: (nat, string))
    requires HasKey(members, x.1) && x.0 == Rank(members, x.1)
    requires HasKey(members, y.1) && y.0 == Rank(members, y.1)
    requires x.0 <= y.0 && x != y
    ensures Rank(members, x.1) < Rank(members, y.1)
  {
    if Rank(members, x.1) == Rank(members, y.1) {
      RankInjective(members, x.1, y.1);
    }
  }

  /**
   * `Object.entries` of a parsed object: each key once, holding the value of
   * its last occurrence, array indices first in ascending numeric order and
   * the other keys in order of first occurrence.
   */
  function OwnEntries(members: seq<(string, Json)>): (r: seq<(string, Json)>)
    ensures forall key :: key in Names(r) <==> HasKey(members, key)
    ensures DistinctNames(Names(r))
    ensures forall i :: 0 <= i < |r| ==> Member(members, r[i].0) == Some(r[i].1)
    ensures forall i, j :: 0 <= i < j < |r| ==> Rank(members, r[i].0) < Rank(members, r[j].0)
  {
    var keys := OwnKeys(members);
    assert forall i :: 0 <= i < |keys| ==> keys[i] in keys && HasKey(members, keys[i]);
    var r := seq(|keys|, i requires 0 <= i < |keys| => (keys[i], Member(members, keys[i]).value));
    assert Names(r) == keys;
    r
  }

  /** Distinct keys of one object never share a rank, so enumeration order is total. */
  lemma RankInjective(members: seq<(string, Json)>, a: string, b: string)
    requires HasKey(members, a) && HasKey(members, b)
    requires Rank(members, a) == Rank(members, b)
    ensures a == b
  {
    if IsArrayIndex(a) && IsArrayIndex(b) {
      CanonicalNumeralsInjective(a, b);
    } else if !IsArrayIndex(a) && !IsArrayIndex(b) {
      var p := FirstPos(members, a);
      assert p < |members|;
    }
  }

  /** Two canonical numerals that denote the same number are the same string. */
  lemma CanonicalNumeralsInjective(a: string, b: string)
    requires IsArrayIndex(a) && IsArrayIndex(b)
    requires Text.DigitsValue(a) == Text.DigitsValue(b)
    ensures a == b
  {
    NumeralBounds(a);
    NumeralBounds(b);
    SameLengthNumerals(a, b);
  }

  function Pow10(n: nat): (r: nat)
    ensures r >= 1
  {
    if n == 0 then 1 else 10 * Pow10(n - 1)
  }

  lemma {:induction false} Pow10Monotone(m: nat, n: nat)
    requires m <= n
    ensures Pow10(m) <= Pow10(n)
  {
    if m < n {
      Pow10Monotone(m, n - 1);
    }
  }

  /** A numeral of k digits is below 10^k and, without a leading zero, at least 10^(k-1). */
  lemma {:induction false} NumeralBounds(s: string)
    requires |s| > 0 && Text.AllDigits(s)
    ensures Text.DigitsValue(s) < Pow10(|s|)
    ensures s[0] != '0' ==> Text.DigitsValue(s) >= Pow10(|s| - 1)
    ensures s[0] == '0' && |s| == 1 ==> Text.DigitsValue(s) == 0
  {
    var init := s[..|s| - 1];
    assert Text.DigitsValue(init) == 0 || |init| > 0;
    if |s| > 1 {
      assert init[0] == s[0];
      NumeralBounds(init);
    }
  }

  /** Numerals of equal length and equal value are equal. */
  lemma {:induction false} SameLengthNumerals(a: string, b: string)
    requires |a| == |b| && Text.AllDigits(a) && Text.AllDigits(b)
    requires Text.DigitsValue(a) == Text.DigitsValue(b)
    ensures a == b
  {
    if |a| > 0 {
      var n := |a| - 1;
      var da, db := a[n] as int - '0' as int, b[n] as int - '0' as int;
      var va, vb := Text.DigitsValue(a[..n]), Text.DigitsValue(b[..n]);
      assert va * 10 + da == vb * 10 + db;
      assert da == db && va == vb;
      SameLengthNumerals(a[..n], b[..n]);
      assert a == a[..n] + [a[n]] && b == b[..n] + [b[n]];
    }
  }

  /** Integer-like keys come out in ascending order whatever their order in the text. */
  lemma IndexKeysAscending()
    ensures OwnEntries([("500", JNum(60.0)), ("250", JNum(40.0))]) == [("250", JNum(40.0)), ("500", JNum(60.0))]
  {
    var ms := [("500", JNum(60.0)), ("250", JNum(40.0))];
    ExampleKeys(ms);
    ExampleRanks(ms);
    TwoKeyOrder(ms, "250", "500");
    var r := OwnEntries(ms);
    assert Member(ms, "250") == Some(JNum(40.0)) && Member(ms, "500") == Some(JNum(60.0));
    assert r[0] == ("250", JNum(40.0)) && r[1] == ("500", JNum(60.0));
  }

  /** An object with exactly two keys enumerates them lower rank first. */
  lemma TwoKeyOrder(ms: seq<(string, Json)>, a: string, b: string)
    requires forall key :: HasKey(ms, key) <==> key == a || key == b
    requires Rank(ms, a) < Rank(ms, b)
    ensures Names(OwnEntries(ms)) == [a, b]
  {
    var r := OwnEntries(ms);
    var n := Names(r);
    assert forall x :: x in n ==> x == a || x == b;
    TwoNames(n, a, b);
  }

  lemma TwoNames(n: seq<string>, a: string, b: string)
    requires a != b && a in n && b in n
    requires forall x :: x in n ==> x == a || x == b
    requires DistinctNames(n)
    ensures n == [a, b] || n == [b, a]
  {
    DistinctCount(n);
    assert (set x | x in n) == {a, b};
    assert n[0] in n && n[1] in n;
  }

  /** A sequence without repeats has as many elements as it has distinct values. */
  lemma {:induction false} DistinctCount(n: seq<string>)
    requires DistinctNames(n)
    ensures |set x | x in n| == |n|
  {
    if |n| > 0 {
      var init := n[..|n| - 1];
      DistinctCount(init);
      assert (set x | x in n) == (set x | x in init) + {n[|n| - 1]};
      assert n[|n| - 1] !in init;
    }
  }

  lemma ExampleKeys(ms: seq<(string, Json)>)
    requires ms == [("500", JNum(60.0)), ("250", JNum(40.0))]
    ensures forall key :: HasKey(ms, key) <==> key == "500" || key == "250"
  {
    assert ms[0].0 == "500" && ms[1].0 == "250";
  }

  lemma ExampleRanks(ms: seq<(string, Json)>)
    ensures Rank(ms, "250") == 250 && Rank(ms, "500") == 500
  {
    assert "250"[..2] == "25" && "25"[..1] == "2" && "2"[..0] == "";
    assert "500"[..2] == "50" && "50"[..1] == "5" && "5"[..0] == "";
  }
}
