/**
 * The tricky-word statistics: a dictionary from word to tap count kept
 * in localStorage, raised by `trackWord` and listed by `renderDashboard`
 * most-tapped first.
 */
module WordStats {
  import opened Wrappers
  import opened JsObject

  type Stats = Entries<nat>

  /** `stats[word] || 0` on own keys: the count so far, 0 for a word never tapped. */
  function CountOf(stats: Stats, word: string): nat {
    Get(stats, word).GetOr(0)
  }

  /** The dictionary after `stats[word] = (stats[word] || 0) + 1`. */
  function Tracked(stats: Stats, word: string): (r: Stats)
    ensures CountOf(r, word) == CountOf(stats, word) + 1
    ensures forall w :: w != word ==> Get(r, w) == Get(stats, w)
    ensures HasKey(stats, word) ==> |r| == |stats|
    ensures !HasKey(stats, word) ==> r == stats + [(word, 1)]
  {
    var n: nat := CountOf(stats, word) + 1;
    var r := Put<nat>(stats, word, n);
    GetPutSame(stats, word, n);
    forall w | w != word ensures Get(r, w) == Get(stats, w) {
      GetPutOther(stats, word, n, w);
    }
    r
  }

  /** Tracking keeps the dictionary a dictionary. */
  lemma TrackedKeepsUnique(stats: Stats, word: string)
    requires UniqueKeys(stats)
    ensures UniqueKeys(Tracked(stats, word))
  {
    var n: nat := CountOf(stats, word) + 1;
    PutKeepsUnique(stats, word, n);
  }

  /** The number of taps the dictionary records, over all words. */
  function TotalTaps(stats: Stats): nat {
    if stats == [] then 0 else stats[0].1 + TotalTaps(stats[1..])
  }

  /** Each tap adds exactly one to the total. */
  lemma {:induction false} TrackedAddsOneTap(stats: Stats, word: string)
    ensures TotalTaps(Tracked(stats, word)) == TotalTaps(stats) + 1
  {
    if stats == [] {
    } else if stats[0].0 == word {
      assert Tracked(stats, word) == [(word, stats[0].1 + 1)] + stats[1..];
      assert ([(word, stats[0].1 + 1)] + stats[1..])[1..] == stats[1..];
    } else {
      TrackedAddsOneTap(stats[1..], word);
      assert Tracked(stats, word) == [stats[0]] + Tracked(stats[1..], word);
      assert ([stats[0]] + Tracked(stats[1..], word))[1..] == Tracked(stats[1..], word);
    }
  }

  /** Entries in non-increasing order of count. */
  predicate SortedByCount(s: Stats) {
    forall i, j :: 0 <= i < j < |s| ==> s[i].1 >= s[j].1
  }

  /** Places an entry after every entry with a strictly higher count and before the rest. */
  function InsertByCount(e: (string, nat), s: Stats): (r: Stats)
    ensures |r| == |s| + 1
  {
    if s == [] || s[0].1 <= e.1 then [e] + s
    else [s[0]] + InsertByCount(e, s[1..])
  }

  /** Inserting adds the entry and nothing else. */
  lemma {:induction false} InsertAddsEntry(e: (string, nat), s: Stats)
    ensures multiset(InsertByCount(e, s)) == multiset(s) + multiset{e}
  {
    if s != [] && s[0].1 > e.1 {
      InsertAddsEntry(e, s[1..]);
      assert s == [s[0]] + s[1..];
    }
  }

  /** No entry counts more than `c`. */
  predicate CountsAtMost(s: Stats, c: nat) {
    forall k :: 0 <= k < |s| ==> s[k].1 <= c
  }

  lemma {:induction false} InsertCountsAtMost(e: (string, nat), s: Stats, c: nat)
    requires CountsAtMost(s, c) && e.1 <= c
    ensures CountsAtMost(InsertByCount(e, s), c)
  {
    if s != [] && s[0].1 > e.1 {
      InsertCountsAtMost(e, s[1..], c);
      assert InsertByCount(e, s) == [s[0]] + InsertByCount(e, s[1..]);
    }
  }

  lemma ConsSorted(x: (string, nat), t: Stats)
    requires SortedByCount(t) && CountsAtMost(t, x.1)
    ensures SortedByCount([x] + t)
  {
    var r := [x] + t;
    forall i, j | 0 <= i < j < |r| ensures r[i].1 >= r[j].1 {
      assert r[j] == t[j - 1];
      if i > 0 {
        assert r[i] == t[i - 1];
      }
    }
  }

  lemma {:induction false} InsertKeepsSorted(e: (string, nat), s: Stats)
    requires SortedByCount(s)
    ensures SortedByCount(InsertByCount(e, s))
  {
    if s == [] || s[0].1 <= e.1 {
      ConsSorted(e, s);
    } else {
      assert SortedByCount(s[1..]) && CountsAtMost(s[1..], s[0].1) by {
        forall k | 0 <= k < |s[1..]| ensures s[1..][k].1 <= s[0].1 {
          assert s[1..][k] == s[k + 1];
        }
      }
      InsertKeepsSorted(e, s[1..]);
      InsertCountsAtMost(e, s[1..], s[0].1);
      ConsSorted(s[0], InsertByCount(e, s[1..]));
    }
  }

  /**
   * `Object.entries(stats).sort(([, a], [, b]) => b - a)`: the sort is
   * stable, so each entry goes before every later entry with a count not
   * higher than its own.
   */
  function SortByCount(s: Stats): (r: Stats)
    ensures |r| == |s|
  {
    if s == [] then [] else InsertByCount(s[0], SortByCount(s[1..]))
  }

  /** The dashboard is in non-increasing order of count. */
  lemma {:induction false} DashboardSorted(s: Stats)
    ensures SortedByCount(SortByCount(s))
  {
    if s != [] {
      DashboardSorted(s[1..]);
      InsertKeepsSorted(s[0], SortByCount(s[1..]));
    }
  }

  /** The dashboard lists every entry of the dictionary exactly once. */
  lemma {:induction false} DashboardIsPermutation(s: Stats)
    ensures multiset(SortByCount(s)) == multiset(s)
  {
    if s != [] {
      DashboardIsPermutation(s[1..]);
      InsertAddsEntry(s[0], SortByCount(s[1..]));
      assert s == [s[0]] + s[1..];
    }
  }

  /** The entries with count `c`, in order. */
  function WithCount(s: Stats, c: nat): Stats {
    if s == [] then []
    else (if s[0].1 == c then [s[0]] else []) + WithCount(s[1..], c)
  }

  lemma {:induction false} WithCountInsert(e: (string, nat), s: Stats, c: nat)
    ensures WithCount(InsertByCount(e, s), c) == (if e.1 == c then [e] else []) + WithCount(s, c)
  {
    var he: Stats := if e.1 == c then [e] else [];
    if s == [] || s[0].1 <= e.1 {
      var r := [e] + s;
      assert r[0] == e && r[1..] == s;
      assert WithCount(r, c) == he + WithCount(r[1..], c);
    } else {
      var hs: Stats := if s[0].1 == c then [s[0]] else [];
      var rest := InsertByCount(e, s[1..]);
      var r := [s[0]] + rest;
      assert r[0] == s[0] && r[1..] == rest;
      WithCountInsert(e, s[1..], c);
      assert WithCount(r, c) == hs + WithCount(rest, c);
      assert WithCount(s, c) == hs + WithCount(s[1..], c);
      assert hs + he == he + hs;
      assert WithCount(r, c) == hs + (he + WithCount(s[1..], c));
    }
  }

  /** Words tapped equally often keep their dictionary order on the dashboard. */
  lemma {:induction false} DashboardIsStable(s: Stats, c: nat)
    ensures WithCount(SortByCount(s), c) == WithCount(s, c)
  {
    if s != [] {
      DashboardIsStable(s[1..], c);
      WithCountInsert(s[0], SortByCount(s[1..]), c);
    }
  }

  /**
   * `trackWord` as written, where the lookup `stats[word]` also sees members
   * inherited from `Object.prototype`, and where assigning to `__proto__`
   * that is not an own key goes to the inherited setter, which ignores a
   * value that is not an object.
   */
  function TrackedAsWritten(stats: Entries<JsValue>, word: string): Entries<JsValue> {
    var current := match Get(stats, word) case Some(v) => v case None => InheritedMember(word);
    var base := if Truthy(current) then current else Num(0);
    if word == "__proto__" && !HasKey(stats, word) then stats
    else Put(stats, word, PlusOne(base))
  }

  /** JavaScript `v + 1`: numbers add, anything else is turned into a string and concatenated. */
  function PlusOne(v: JsValue): JsValue {
    match v
    case Num(n) => Num(n + 1)
    case Str(s) => Str(s + "1")
    case NativeFunction(src) => Str(src + "1")
    case ObjectPrototype => Str("[object Object]1")
    case Undefined => Undefined
  }

  /** The stored counts as JavaScript numbers. */
  function AsJs(stats: Stats): (r: Entries<JsValue>)
    ensures |r| == |stats|
    ensures forall k :: 0 <= k < |r| ==> r[k].0 == stats[k].0 && r[k].1 == Num(stats[k].1)
  {
    if stats == [] then [] else [(stats[0].0, Num(stats[0].1))] + AsJs(stats[1..])
  }

  lemma {:induction false} AsJsGet(stats: Stats, w: string)
    ensures Get(AsJs(stats), w) == (if HasKey(stats, w) then Some(Num(CountOf(stats, w))) else None)
  {
    if stats != [] {
      AsJsGet(stats[1..], w);
      assert AsJs(stats)[1..] == AsJs(stats[1..]);
    }
  }

  lemma {:induction false} AsJsPut(stats: Stats, w: string, n: nat)
    ensures AsJs(Put(stats, w, n)) == Put(AsJs(stats), w, Num(n))
  {
    if stats != [] {
      assert AsJs(stats)[1..] == AsJs(stats[1..]);
      if stats[0].0 == w {
        assert Put(stats, w, n) == [(w, n)] + stats[1..];
        assert ([(w, n)] + stats[1..])[1..] == stats[1..];
      } else {
        AsJsPut(stats[1..], w, n);
        assert Put(stats, w, n) == [stats[0]] + Put(stats[1..], w, n);
        assert ([stats[0]] + Put(stats[1..], w, n))[1..] == Put(stats[1..], w, n);
      }
    }
  }

  /** For every word that names no inherited member the code as written counts like the model. */
  lemma AsWrittenAgreesElsewhere(stats: Stats, word: string)
    requires InheritedMember(word) == Undefined
    ensures TrackedAsWritten(AsJs(stats), word) == AsJs(Tracked(stats, word))
  {
    var n: nat := CountOf(stats, word) + 1;
    AsJsGet(stats, word);
    AsJsPut(stats, word, n);
  }

  /** As written, the first tap on "constructor" stores a string built from the `Object` function. */
  lemma ConstructorAsWritten()
    ensures Get(TrackedAsWritten([], "constructor"), "constructor") == Some(Str(ObjectConstructorSource + "1"))
  {
  }

  /** For the lowered words the reader tracks, only "constructor" and "__proto__" are counted differently as written. */
  lemma AsWrittenAgreesOnLowered(stats: Stats, word: string)
    requires NoAsciiUpper(word) && word != "constructor" && word != "__proto__"
    ensures TrackedAsWritten(AsJs(stats), word) == AsJs(Tracked(stats, word))
  {
    LoweredKeysInherit(word);
    AsWrittenAgreesElsewhere(stats, word);
  }

  /** As written, a tap on "__proto__" is not counted at all: the assignment goes to the prototype setter. */
  lemma ProtoAsWritten()
    ensures TrackedAsWritten([], "__proto__") == []
    ensures Get(Tracked([], "__proto__"), "__proto__") == Some(1)
  {
  }

  /** With an own-key lookup the first tap on "constructor" counts 1. */
  lemma ConstructorCountedOnce()
    ensures Get(Tracked([], "constructor"), "constructor") == Some(1)
  {
  }
}
