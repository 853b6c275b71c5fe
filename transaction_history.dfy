/**
 * The transaction-history page: the search filter over the fetched
 * transactions, the two aggregate cards, and the title shown for each
 * transaction. Everything here is a pure function of the fetched list and
 * the search box's text.
 */
module TransactionHistory {
  import opened Wrappers
  import opened JsString

  /** One purchase as the history endpoint returns it; money amounts are integers. */
  datatype Transaction = Transaction(
    id: int,
    assetId: int,
    assetName: Option<string>,
    buyer: string,
    quantity: int,
    timestamp: string,
    totalPrice: Option<int>,
    price: Option<int>)

  /* ---------------- search ---------------- */

  /**
   * The filter predicate: the lower-cased asset name (when there is one) or
   * the lower-cased buyer contains the lower-cased query.
   */
  predicate MatchesQuery(t: Transaction, query: string) {
    || (t.assetName.Some? && Contains(ToLower(t.assetName.value), ToLower(query)))
    || Contains(ToLower(t.buyer), ToLower(query))
  }

  /**
   * Positional reading of the filter predicate: the lower-cased query occurs
   * at some index of the lower-cased asset name (when present) or buyer.
   */
  lemma MatchesQueryIffOccurs(t: Transaction, query: string)
    ensures MatchesQuery(t, query)
            <==> || (t.assetName.Some? && exists i :: OccursAt(ToLower(t.assetName.value), ToLower(query), i))
                 || exists i :: OccursAt(ToLower(t.buyer), ToLower(query), i)
  {
    var q, buyer := ToLower(query), ToLower(t.buyer);
    ContainsIffOccurs(buyer, q);
    if t.assetName.Some? {
      ContainsIffOccurs(ToLower(t.assetName.value), q);
    }
    if MatchesQuery(t, query) {
      if t.assetName.Some? && Contains(ToLower(t.assetName.value), q) {
        var i :| OccursAt(ToLower(t.assetName.value), q, i);
        assert exists j :: OccursAt(ToLower(t.assetName.value), ToLower(query), j);
      } else {
        var i :| OccursAt(buyer, q, i);
        assert exists j :: OccursAt(ToLower(t.buyer), ToLower(query), j);
      }
    }
  }

  /** `a` is `b` with some elements removed, the rest kept in their order. */
  predicate IsSubsequence<T(==)>(a: seq<T>, b: seq<T>)
    decreases |b|
  {
    || a == []
    || (b != [] && ((a[0] == b[0] && IsSubsequence(a[1..], b[1..])) || IsSubsequence(a, b[1..])))
  }

  /** `transactions.filter(MatchesQuery)`. */
  function KeepMatching(ts: seq<Transaction>, query: string): seq<Transaction>
    decreases |ts|
  {
    if ts == [] then []
    else (if MatchesQuery(ts[0], query) then [ts[0]] else []) + KeepMatching(ts[1..], query)
  }

  /**
   * The filter keeps every matching transaction as often as it occurs,
   * nothing else, and in the input's order.
   */
  lemma {:induction false} KeepMatchingSpec(ts: seq<Transaction>, query: string)
    ensures IsSubsequence(KeepMatching(ts, query), ts)
    ensures forall t :: multiset(KeepMatching(ts, query))[t]
                        == if MatchesQuery(t, query) then multiset(ts)[t] else 0
    decreases |ts|
  {
    if ts != [] {
      KeepMatchingSpec(ts[1..], query);
      var rest := KeepMatching(ts[1..], query);
      var keep := MatchesQuery(ts[0], query);
      var r := KeepMatching(ts, query);
      assert r == if keep then [ts[0]] + rest else rest;
      assert multiset(ts) == multiset{ts[0]} + multiset(ts[1..]) by {
        assert ts == [ts[0]] + ts[1..];
      }
      if !keep && rest != [] {
        assert IsSubsequence(rest, ts[1..]);
      }
    }
  }

  /**
   * The list the page shows for the search box's text: the whole list when
   * the query is empty, the matching transactions otherwise.
   */
  function SearchResults(ts: seq<Transaction>, query: string): (r: seq<Transaction>)
    ensures query == [] ==> r == ts
    ensures IsSubsequence(r, ts)
  {
    if query == [] then
      IsSubsequenceReflexive(ts);
      ts
    else
      KeepMatchingSpec(ts, query);
      KeepMatching(ts, query)
  }

  lemma {:induction false} IsSubsequenceReflexive<T>(s: seq<T>)
    ensures IsSubsequence(s, s)
    decreases |s|
  {
    if s != [] {
      IsSubsequenceReflexive(s[1..]);
    }
  }

  /** With a non-empty query, a transaction is shown iff it is in the list and matches. */
  lemma SearchMembership(ts: seq<Transaction>, query: string, t: Transaction)
    requires query != []
    ensures t in SearchResults(ts, query) <==> t in ts && MatchesQuery(t, query)
  {
    var r := SearchResults(ts, query);
    KeepMatchingSpec(ts, query);
    assert t in r <==> multiset(r)[t] > 0;
    assert t in ts <==> multiset(ts)[t] > 0;
  }

  /** Filtering distributes over concatenation of the fetched list. */
  lemma {:induction false} KeepMatchingAppend(a: seq<Transaction>, b: seq<Transaction>, query: string)
    ensures KeepMatching(a + b, query) == KeepMatching(a, query) + KeepMatching(b, query)
    decreases |a|
  {
    if a == [] {
      assert a + b == b;
    } else {
      var c := a + b;
      assert c[0] == a[0] && c[1..] == a[1..] + b;
      KeepMatchingAppend(a[1..], b, query);
      var head := if MatchesQuery(a[0], query) then [a[0]] else [];
      var restA, restB := KeepMatching(a[1..], query), KeepMatching(b, query);
      assert KeepMatching(c, query) == head + (restA + restB);
      assert KeepMatching(a, query) == head + restA;
      assert head + (restA + restB) == (head + restA) + restB;
    }
  }

  /** Filtering depends on the query only through its lower-cased form. */
  lemma {:induction false} KeepMatchingCaseInsensitive(ts: seq<Transaction>, q1: string, q2: string)
    requires ToLower(q1) == ToLower(q2)
    ensures KeepMatching(ts, q1) == KeepMatching(ts, q2)
    decreases |ts|
  {
    if ts != [] {
      KeepMatchingCaseInsensitive(ts[1..], q1, q2);
    }
  }

  /** Changing the letter case of the query does not change what is shown. */
  lemma SearchCaseInsensitive(ts: seq<Transaction>, q1: string, q2: string)
    requires ToLower(q1) == ToLower(q2)
    ensures SearchResults(ts, q1) == SearchResults(ts, q2)
  {
    if q1 != [] {
      KeepMatchingCaseInsensitive(ts, q1, q2);
    }
  }

  /** In particular, typing the query in capitals finds the same transactions. */
  lemma SearchUpperCaseQuery(ts: seq<Transaction>, query: string)
    ensures SearchResults(ts, ToUpper(query)) == SearchResults(ts, query)
  {
    ToLowerOfToUpper(query);
    SearchCaseInsensitive(ts, ToUpper(query), query);
  }

  /** A transaction without an asset name is found only through its buyer. */
  lemma NamelessFoundOnlyByBuyer(ts: seq<Transaction>, query: string, t: Transaction)
    requires query != [] && t in ts && t.assetName.None?
    ensures t in SearchResults(ts, query) <==> Contains(ToLower(t.buyer), ToLower(query))
  {
    SearchMembership(ts, query, t);
  }

  /**
   * The placeholder title is not searched: a nameless transaction whose
   * lower-cased buyer does not contain "asset #" is not found by the query
   * "Asset #", although its title starts with exactly that text.
   */
  lemma PlaceholderTitleNotSearched(t: Transaction)
    requires t.assetName.None? && !Contains(ToLower(t.buyer), "asset #")
    ensures DisplayTitle(t)[..7] == "Asset #"
    ensures SearchResults([t], "Asset #") == []
  {
    ToLowerSpec("Asset #");
    assert ToLower("Asset #") == "asset #";
    assert !MatchesQuery(t, "Asset #");
    assert [t][1..] == [];
    assert KeepMatching([t], "Asset #") == [] + KeepMatching([], "Asset #");
    assert DisplayTitle(t) == "Asset #" + IntToDecimal(t.assetId);
  }

  /* ---------------- aggregates ---------------- */

  /** `txn.total_price || 0`. */
  function PriceOrZero(t: Transaction): (p: int)
    ensures t.totalPrice.Some? ==> p == t.totalPrice.value
    ensures t.totalPrice.None? ==> p == 0
  {
    t.totalPrice.GetOr(0)
  }

  /** Reference definition of the volume: the sum of the prices, missing ones as 0. */
  function SumOfPrices(ts: seq<Transaction>): int {
    if ts == [] then 0 else PriceOrZero(ts[0]) + SumOfPrices(ts[1..])
  }

  /** `reduce((sum, txn) => sum + (txn.total_price || 0), acc)`: a left fold. */
  function FoldVolume(acc: int, ts: seq<Transaction>): (v: int)
    ensures v == acc + SumOfPrices(ts)
    decreases |ts|
  {
    if ts == [] then acc else FoldVolume(acc + PriceOrZero(ts[0]), ts[1..])
  }

  /** The total-volume card: the fold started at 0 is the sum of the prices. */
  function TotalVolume(ts: seq<Transaction>): (v: int)
    ensures v == SumOfPrices(ts)
  {
    FoldVolume(0, ts)
  }

  /** The volume of two lists put together is the sum of their volumes. */
  lemma {:induction false} SumOfPricesAppend(a: seq<Transaction>, b: seq<Transaction>)
    ensures SumOfPrices(a + b) == SumOfPrices(a) + SumOfPrices(b)
    decreases |a|
  {
    if a == [] {
      assert a + b == b;
    } else {
      assert (a + b)[1..] == a[1..] + b;
      SumOfPricesAppend(a[1..], b);
    }
  }

  /** A newly listed transaction adds exactly its price, or 0 when it has none. */
  lemma TotalVolumeSnoc(ts: seq<Transaction>, t: Transaction)
    ensures TotalVolume(ts + [t]) == TotalVolume(ts) + PriceOrZero(t)
  {
    SumOfPricesAppend(ts, [t]);
    assert [t][1..] == [];
  }

  /** When no listed price is negative, the volume is not negative either. */
  lemma {:induction false} TotalVolumeNonNegative(ts: seq<Transaction>)
    requires forall i :: 0 <= i < |ts| ==> PriceOrZero(ts[i]) >= 0
    ensures TotalVolume(ts) >= 0
    decreases |ts|
  {
    if ts != [] {
      TotalVolumeNonNegative(ts[1..]);
    }
  }

  /* ---------------- the page ---------------- */

  /** What the page renders from its state: the visible list and the two cards. */
  datatype PageView = PageView(shown: seq<Transaction>, totalVolume: int, totalTransactions: nat)

  /**
   * The cards are computed from the whole fetched list, never from the
   * filtered one, so the query changes only the visible list.
   */
  function Render(ts: seq<Transaction>, query: string): (v: PageView)
    ensures v.totalTransactions == |ts|
    ensures v.totalVolume == SumOfPrices(ts)
    ensures |v.shown| <= v.totalTransactions
    ensures query == [] ==> v.shown == ts
    ensures IsSubsequence(v.shown, ts)
  {
    var shown := SearchResults(ts, query);
    SubsequenceNotLonger(shown, ts);
    PageView(shown, TotalVolume(ts), |ts|)
  }

  lemma {:induction false} SubsequenceNotLonger<T>(a: seq<T>, b: seq<T>)
    requires IsSubsequence(a, b)
    ensures |a| <= |b|
    decreases |b|
  {
    if a != [] {
      if a[0] == b[0] && IsSubsequence(a[1..], b[1..]) {
        SubsequenceNotLonger(a[1..], b[1..]);
      } else {
        SubsequenceNotLonger(a, b[1..]);
      }
    }
  }

  /** Two queries always produce the same cards. */
  lemma CardsIndependentOfQuery(ts: seq<Transaction>, q1: string, q2: string)
    ensures Render(ts, q1).totalVolume == Render(ts, q2).totalVolume
    ensures Render(ts, q1).totalTransactions == Render(ts, q2).totalTransactions
  {
  }

  /* ---------------- the card title ---------------- */

  /** `transaction.asset_name || \`Asset #${transaction.asset_id}\``. */
  function DisplayTitle(t: Transaction): (title: string)
    ensures |title| > 0
  {
    if t.assetName.Some? && t.assetName.value != [] then t.assetName.value
    else "Asset #" + IntToDecimal(t.assetId)
  }

  /** The title is the asset name whenever that is present and non-empty. */
  lemma TitleIsName(t: Transaction)
    requires t.assetName.Some? && t.assetName.value != []
    ensures DisplayTitle(t) == t.assetName.value
  {
  }

  /**
   * A placeholder title names the asset: after "Asset #" comes the id's
   * numeral, with a minus sign first for a negative id, and its digits read
   * back as the id's magnitude.
   */
  lemma DisplayTitleNamesAsset(t: Transaction)
    requires t.assetName.None? || t.assetName.value == []
    ensures var title := DisplayTitle(t);
            && |title| >= 8 && title[..7] == "Asset #"
            && (t.assetId >= 0 ==> (forall i :: 7 <= i < |title| ==> IsDigit(title[i]))
                                   && DecimalValue(title[7..]) == t.assetId)
            && (t.assetId < 0 ==> title[7] == '-'
                                  && (forall i :: 8 <= i < |title| ==> IsDigit(title[i]))
                                  && DecimalValue(title[8..]) == -t.assetId)
  {
    var title := DisplayTitle(t);
    if t.assetId >= 0 {
      assert title[7..] == NatToDecimal(t.assetId);
      DecimalRoundTrip(t.assetId);
    } else {
      assert title[8..] == NatToDecimal(-t.assetId);
      DecimalRoundTrip(-t.assetId);
    }
  }

  /** Placeholder titles tell assets apart: equal placeholders mean the same asset id. */
  lemma PlaceholderTitlesDistinguishAssets(t1: Transaction, t2: Transaction)
    requires t1.assetName.None? || t1.assetName.value == []
    requires t2.assetName.None? || t2.assetName.value == []
    requires DisplayTitle(t1) == DisplayTitle(t2)
    ensures t1.assetId == t2.assetId
  {
    var p := "Asset #";
    assert (p + IntToDecimal(t1.assetId))[|p|..] == IntToDecimal(t1.assetId);
    assert (p + IntToDecimal(t2.assetId))[|p|..] == IntToDecimal(t2.assetId);
    IntToDecimalInjective(t1.assetId, t2.assetId);
  }
}
