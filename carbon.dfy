/**
  Choosing the carbon source of a batch experiment. The metabolites whose
  name matches the user's filter and those whose id matches it are merged
  into one candidate list, name matches first and without repetition; the
  chosen metabolite is then looked up among the model's exchange reactions
  by its id occurring in the reaction's text.

  The metabolite query itself belongs to the metabolic-model library, so
  its two results are inputs here. Python leaves the iteration order of a
  set unspecified; the model enumerates each set in first-occurrence order
  of the query result, which is one of the orders Python may produce, and
  states only what holds for every order.
*/
module CarbonSource {
  import opened Text

  datatype Metabolite = Metabolite(id: string, name: string)

  /** An exchange reaction: its id and its reaction text, e.g. `glc__D_e <=>`. */
  datatype Reaction = Reaction(id: string, reaction: string)

  predicate Distinct<T(==)>(s: seq<T>) {
    forall i, j :: 0 <= i < j < |s| ==> s[i] != s[j]
  }

  function Elems<T>(s: seq<T>): set<T> {
    set x | x in s
  }

  /** `list(set(s))`: every element of `s` exactly once. */
  function Dedup(s: seq<Metabolite>): (r: seq<Metabolite>)
    ensures Distinct(r)
    ensures forall x :: x in r <==> x in s
  {
    if s == [] then []
    else
      var r := Dedup(s[..|s| - 1]);
      assert forall x :: x in s <==> x in s[..|s| - 1] || x == s[|s| - 1];
      if s[|s| - 1] in r then r else r + [s[|s| - 1]]
  }

  /** The elements of `s` that do not occur in `drop`, in order. */
  function Without(s: seq<Metabolite>, drop: seq<Metabolite>): (r: seq<Metabolite>)
    ensures forall x :: x in r <==> x in s && x !in drop
    ensures Distinct(s) ==> Distinct(r)
  {
    if s == [] then []
    else
      var rest := Without(s[1..], drop);
      assert forall x :: x in s <==> x == s[0] || x in s[1..];
      if s[0] in drop then rest else [s[0]] + rest
  }

  /** `list(Fil1) + list(Fil2 - Fil1)`: each metabolite matched by name or
      by id occurs exactly once, and no id-only match comes before a name
      match. */
  function Candidates(nameMatches: seq<Metabolite>, idMatches: seq<Metabolite>): (r: seq<Metabolite>)
    ensures Distinct(r)
    ensures forall x :: x in r <==> x in nameMatches || x in idMatches
    ensures forall i, j :: 0 <= i < j < |r| && r[j] in nameMatches ==> r[i] in nameMatches
  {
    var first := Dedup(nameMatches);
    var second := Without(Dedup(idMatches), nameMatches);
    BlocksApart(first, second, nameMatches);
    first + second
  }

  /** Two repetition-free blocks, the first inside `names` and the second
      outside it, concatenate to a repetition-free list in which every
      element of `names` precedes every other. */
  lemma BlocksApart(first: seq<Metabolite>, second: seq<Metabolite>, names: seq<Metabolite>)
    requires Distinct(first) && Distinct(second)
    requires forall x :: x in first ==> x in names
    requires forall x :: x in second ==> x !in names
    ensures Distinct(first + second)
    ensures forall i, j :: 0 <= i < j < |first + second| && (first + second)[j] in names ==> (first + second)[i] in names
  {
    var r := first + second;
    forall k | 0 <= k < |r|
      ensures k < |first| ==> r[k] == first[k] && r[k] in names
      ensures k >= |first| ==> r[k] == second[k - |first|] && r[k] !in names
    {
      if k >= |first| {
        assert r[k] in second;
      }
    }
  }

  lemma {:induction false} DistinctCard(s: seq<Metabolite>)
    requires Distinct(s)
    ensures |Elems(s)| == |s|
  {
    if s != [] {
      var t := s[..|s| - 1];
      DistinctCard(t);
      assert Elems(s) == Elems(t) + {s[|s| - 1]};
      assert s[|s| - 1] !in Elems(t);
    }
  }

  /** The candidate list is as long as the union of the two match sets, so
      nothing in it is repeated and nothing is lost. */
  lemma CandidatesCount(nameMatches: seq<Metabolite>, idMatches: seq<Metabolite>)
    ensures |Candidates(nameMatches, idMatches)| == |Elems(nameMatches) + Elems(idMatches)|
  {
    var r := Candidates(nameMatches, idMatches);
    DistinctCard(r);
    assert Elems(r) == Elems(nameMatches) + Elems(idMatches);
  }

  /** `[r for r in exchanges if metId in r.reaction]`. */
  function ExchangesFor(exchanges: seq<Reaction>, metId: string): (r: seq<Reaction>)
    ensures |r| <= |exchanges|
    ensures forall x :: x in r <==> x in exchanges && Contains(x.reaction, metId)
  {
    if exchanges == [] then []
    else
      var rest := ExchangesFor(exchanges[1..], metId);
      assert forall x :: x in exchanges <==> x == exchanges[0] || x in exchanges[1..];
      if Contains(exchanges[0].reaction, metId) then [exchanges[0]] + rest else rest
  }

  /** `exchanges[k]` is the first exchange whose reaction text mentions `metId`. */
  predicate FirstMention(exchanges: seq<Reaction>, metId: string, k: int) {
    && 0 <= k < |exchanges|
    && Contains(exchanges[k].reaction, metId)
    && forall j :: 0 <= j < k ==> !Contains(exchanges[j].reaction, metId)
  }

  /** The reaction picked by `[0]`: there is one exactly when some exchange
      mentions the id, and it is the first such exchange in model order. */
  lemma {:induction false} FirstExchange(exchanges: seq<Reaction>, metId: string)
    ensures ExchangesFor(exchanges, metId) == [] <==>
      forall k :: 0 <= k < |exchanges| ==> !Contains(exchanges[k].reaction, metId)
    ensures ExchangesFor(exchanges, metId) != [] ==>
      exists k :: FirstMention(exchanges, metId, k) && ExchangesFor(exchanges, metId)[0] == exchanges[k]
  {
    if exchanges != [] {
      FirstExchange(exchanges[1..], metId);
      if !Contains(exchanges[0].reaction, metId) && ExchangesFor(exchanges, metId) != [] {
        var k :| FirstMention(exchanges[1..], metId, k) && ExchangesFor(exchanges[1..], metId)[0] == exchanges[1..][k];
        assert ExchangesFor(exchanges, metId)[0] == exchanges[k + 1];
        assert FirstMention(exchanges, metId, k + 1);
      }
      if Contains(exchanges[0].reaction, metId) {
        assert FirstMention(exchanges, metId, 0);
      }
      if ExchangesFor(exchanges, metId) == [] {
        forall k | 0 <= k < |exchanges| ensures !Contains(exchanges[k].reaction, metId) {
          if k > 0 { assert exchanges[k] == exchanges[1..][k - 1]; }
        }
      }
    }
  }
}
