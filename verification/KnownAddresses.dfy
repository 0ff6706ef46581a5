/**
 * Routed addresses as lists per chain and contract (`toKnownAddresses` in apps/indexer/scripts/knownConfig.ts):
 * lowercase, each once, sorted.
 */
module KnownAddresses {
  datatype Routed = Routed(chain: nat, contract: string, address: string)

  /** The addresses of each chain's contract. */
  type Known = map<(nat, string), seq<string>>

  function Lower(text: string): string {
    if text == "" then ""
    else [if 'A' <= text[0] <= 'Z' then (text[0] as int + 32) as char else text[0]] + Lower(text[1..])
  }

  /** Before in the order of JavaScript's strings. */
  predicate Less(a: string, b: string) {
    b != "" && (a == "" || a[0] < b[0] || (a[0] == b[0] && Less(a[1..], b[1..])))
  }

  function KeyOf(r: Routed): (nat, string) { (r.chain, r.contract) }

  /** The lowercase addresses routed to a key. */
  function AddressesOf(routed: seq<Routed>, key: (nat, string)): seq<string> {
    if routed == [] then []
    else (if KeyOf(routed[0]) == key then [Lower(routed[0].address)] else []) + AddressesOf(routed[1..], key)
  }

  /** The first of each. */
  function Unique(s: seq<string>): seq<string> {
    if s == [] then [] else
    var n := |s| - 1;
    Unique(s[..n]) + if s[n] in s[..n] then [] else [s[n]]
  }

  function Insert(x: string, sorted: seq<string>): seq<string> {
    if sorted == [] || Less(x, sorted[0]) then [x] + sorted else [sorted[0]] + Insert(x, sorted[1..])
  }

  function Sort(s: seq<string>): seq<string> { if s == [] then [] else Insert(s[0], Sort(s[1..])) }

  function ToKnown(routed: seq<Routed>): Known {
    map key | key in set r | r in routed :: KeyOf(r) :: Sort(Unique(AddressesOf(routed, key)))
  }

  /* ---------------------------------------------------------------- the order */

  lemma {:induction false} LessIsStrict(a: string)
    ensures !Less(a, a)
  {
    if a != "" { LessIsStrict(a[1..]); }
  }

  lemma {:induction false} LessIsTotal(a: string, b: string)
    ensures Less(a, b) || a == b || Less(b, a)
  {
    if a != "" && b != "" && a[0] == b[0] {
      LessIsTotal(a[1..], b[1..]);
      assert [a[0]] + a[1..] == a && [b[0]] + b[1..] == b;
    }
  }

  lemma {:induction false} LessChains(a: string, b: string, c: string)
    requires Less(a, b) && Less(b, c)
    ensures Less(a, c)
  {
    if a != "" && a[0] == b[0] == c[0] { LessChains(a[1..], b[1..], c[1..]); }
  }

  /* ---------------------------------------------------------------- lists in strict order */

  predicate Ascending(s: seq<string>) { forall i, j | 0 <= i < j < |s| :: Less(s[i], s[j]) }

  lemma {:induction false} AscendingTail(s: seq<string>)
    requires Ascending(s) && s != []
    ensures Ascending(s[1..])
  {
    forall i, j | 0 <= i < j < |s[1..]| ensures Less(s[1..][i], s[1..][j]) {
      assert Less(s[i + 1], s[j + 1]);
    }
  }

  lemma {:induction false} AscendingOf(x: string, s: seq<string>)
    requires Ascending(s) && forall y | y in s :: Less(x, y)
    ensures Ascending([x] + s)
  {
    var xs := [x] + s;
    forall i, j | 0 <= i < j < |xs| ensures Less(xs[i], xs[j]) {
      if i > 0 { assert Less(s[i - 1], s[j - 1]); } else { assert s[j - 1] in s; }
    }
  }

  lemma {:induction false} HeadIsLeast(s: seq<string>, y: string)
    requires Ascending(s) && y in s && y != s[0]
    ensures Less(s[0], y)
  {
    var i :| 0 <= i < |s| && s[i] == y;
  }

  lemma {:induction false} HeadNotInTail(s: seq<string>)
    requires Ascending(s) && s != []
    ensures s[0] !in s[1..]
  {
    if s[0] in s[1..] {
      var i :| 0 <= i < |s[1..]| && s[1..][i] == s[0];
      assert Less(s[0], s[i + 1]);
      LessIsStrict(s[0]);
    }
  }

  lemma {:induction false} SameHead(a: seq<string>, b: seq<string>)
    requires Ascending(a) && Ascending(b) && a != [] && b != [] && a[0] in b && b[0] in a
    ensures a[0] == b[0]
  {
    if a[0] != b[0] {
      HeadIsLeast(a, b[0]);
      HeadIsLeast(b, a[0]);
      LessChains(a[0], b[0], a[0]);
      LessIsStrict(a[0]);
    }
  }

  lemma {:induction false} InTail(s: seq<string>, x: string)
    requires s != [] && x in s && x != s[0]
    ensures x in s[1..]
  {
    var i :| 0 <= i < |s| && s[i] == x;
    assert s[1..][i - 1] == x;
  }

  /** A list in strict order is determined by its elements. */
  lemma {:induction false} AscendingEqual(a: seq<string>, b: seq<string>)
    requires Ascending(a) && Ascending(b) && forall x :: x in a <==> x in b
    ensures a == b
  {
    assert a != [] ==> a[0] in a;
    assert b != [] ==> b[0] in b;
    if a != [] && b != [] {
      SameHead(a, b);
      forall x ensures x in a[1..] <==> x in b[1..] {
        HeadNotInTail(a);
        HeadNotInTail(b);
        if x in a[1..] { assert x in a && x in b; InTail(b, x); }
        if x in b[1..] { assert x in b && x in a; InTail(a, x); }
      }
      AscendingTail(a);
      AscendingTail(b);
      AscendingEqual(a[1..], b[1..]);
      assert a == [a[0]] + a[1..] && b == [b[0]] + b[1..];
    }
  }

  /* ---------------------------------------------------------------- what the lists hold */

  lemma {:induction false} InsertHas(x: string, sorted: seq<string>, y: string)
    ensures y in Insert(x, sorted) <==> y == x || y in sorted
  {
    if sorted != [] && !Less(x, sorted[0]) {
      InsertHas(x, sorted[1..], y);
      assert sorted == [sorted[0]] + sorted[1..];
    }
  }

  lemma {:induction false} InsertAscending(x: string, sorted: seq<string>)
    requires Ascending(sorted) && x !in sorted
    ensures Ascending(Insert(x, sorted))
  {
    if sorted == [] {
    } else if Less(x, sorted[0]) {
      forall y | y in sorted ensures Less(x, y) {
        if y != sorted[0] { HeadIsLeast(sorted, y); LessChains(x, sorted[0], y); }
      }
      AscendingOf(x, sorted);
    } else {
      AscendingTail(sorted);
      InsertAscending(x, sorted[1..]);
      LessIsTotal(x, sorted[0]);
      HeadNotInTail(sorted);
      forall y | y in Insert(x, sorted[1..]) ensures Less(sorted[0], y) {
        InsertHas(x, sorted[1..], y);
        if y != x { HeadIsLeast(sorted, y); }
      }
      AscendingOf(sorted[0], Insert(x, sorted[1..]));
    }
  }

  lemma {:induction false} SortHas(s: seq<string>, y: string)
    ensures y in Sort(s) <==> y in s
  {
    if s != [] {
      SortHas(s[1..], y);
      InsertHas(s[0], Sort(s[1..]), y);
      assert s == [s[0]] + s[1..];
    }
  }

  predicate Distinct(s: seq<string>) { forall i, j | 0 <= i < j < |s| :: s[i] != s[j] }

  lemma {:induction false} SortAscending(s: seq<string>)
    requires Distinct(s)
    ensures Ascending(Sort(s))
  {
    if s != [] {
      SortAscending(s[1..]);
      SortHas(s[1..], s[0]);
      InsertAscending(s[0], Sort(s[1..]));
    }
  }

  lemma {:induction false} UniqueHas(s: seq<string>, y: string)
    ensures y in Unique(s) <==> y in s
  {
    if s != [] {
      UniqueHas(s[..|s| - 1], y);
      assert s == s[..|s| - 1] + [s[|s| - 1]];
    }
  }

  lemma {:induction false} UniqueDistinct(s: seq<string>)
    ensures Distinct(Unique(s))
  {
    if s != [] {
      var n := |s| - 1;
      UniqueDistinct(s[..n]);
      UniqueHas(s[..n], s[n]);
    }
  }

  lemma {:induction false} AddressesHave(routed: seq<Routed>, key: (nat, string), y: string)
    ensures y in AddressesOf(routed, key) <==> exists r | r in routed :: KeyOf(r) == key && Lower(r.address) == y
  {
    if routed != [] {
      AddressesHave(routed[1..], key, y);
      assert routed == [routed[0]] + routed[1..];
      if y in AddressesOf(routed, key) && y in AddressesOf(routed[1..], key) {
        var r :| r in routed[1..] && KeyOf(r) == key && Lower(r.address) == y;
        assert r in routed;
      } else if y in AddressesOf(routed, key) {
        assert routed[0] in routed;
      }
      if r :| r in routed && KeyOf(r) == key && Lower(r.address) == y && r != routed[0] {
        assert r in routed[1..];
      }
    }
  }

  function ListOf(known: Known, key: (nat, string)): seq<string> { if key in known then known[key] else [] }

  ghost predicate AllAscending(known: Known) { forall key :: Ascending(ListOf(known, key)) }

  /**
   * Each list is in strict order, so has each address once, and holds exactly the addresses routed to it, in lowercase.
   */
  lemma {:induction false} ToKnownIs(routed: seq<Routed>, key: (nat, string), y: string)
    ensures Ascending(ListOf(ToKnown(routed), key))
    ensures y in ListOf(ToKnown(routed), key)
       <==> exists r | r in routed :: KeyOf(r) == key && Lower(r.address) == y
  {
    var all := AddressesOf(routed, key);
    UniqueDistinct(all);
    SortAscending(Unique(all));
    UniqueHas(all, y);
    SortHas(Unique(all), y);
    AddressesHave(routed, key, y);
  }
}
