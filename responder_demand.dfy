/**
 * Specification of `count_responders_needed`: how many entries, over the
 * responder lists of all open cases, name a given responder type.
 */
module ResponderDemand {
  import opened EmergencyCases
  import opened CaseStore

  /** How many entries of a responder list name `r` (duplicates count separately). */
  function Count(xs: seq<string>, r: string): (n: nat)
    ensures n == multiset(xs)[r]
  {
    if xs == [] then 0
    else
      assert xs == xs[..|xs| - 1] + [xs[|xs| - 1]];
      Count(xs[..|xs| - 1], r) + (if xs[|xs| - 1] == r then 1 else 0)
  }

  /** What one case adds to the demand for `r`: nothing once it is closed. */
  function Contribution(c: Case, r: string): nat
  {
    if c.closed then 0 else Count(c.firstRespondersDemanded, r)
  }

  /** The demand for responder type `r` over a list of cases. */
  function Demand(cases: seq<Case>, r: string): nat
  {
    if cases == [] then 0
    else Demand(cases[..|cases| - 1], r) + Contribution(cases[|cases| - 1], r)
  }

  /** A responder type is counted at least once exactly when the list names it. */
  lemma CountPositive(xs: seq<string>, r: string)
    ensures Count(xs, r) > 0 <==> r in xs
  {
  }

  /** Demand is additive over concatenated case lists. */
  lemma {:induction false} DemandConcat(a: seq<Case>, b: seq<Case>, r: string)
    ensures Demand(a + b, r) == Demand(a, r) + Demand(b, r)
    decreases |b|
  {
    if b == [] {
      assert a + b == a;
    } else {
      var n := |b| - 1;
      assert (a + b)[..|a + b| - 1] == a + b[..n];
      DemandConcat(a, b[..n], r);
    }
  }

  /** Counting over `get_open_cases()` gives the same demand as counting over all cases: closed ones add nothing. */
  lemma {:induction false} DemandOfOpen(cases: seq<Case>, r: string)
    ensures Demand(Open(cases), r) == Demand(cases, r)
  {
    if cases != [] {
      var n := |cases| - 1;
      var last := cases[n];
      DemandOfOpen(cases[..n], r);
      DemandConcat(Open(cases[..n]), if last.closed then [] else [last], r);
      DemandSingle(last, r);
    }
  }

  /** A responder type is in demand exactly when some open case lists it. */
  lemma {:induction false} DemandPositive(cases: seq<Case>, r: string)
    ensures Demand(cases, r) > 0 <==>
            exists i :: 0 <= i < |cases| && !cases[i].closed && r in cases[i].firstRespondersDemanded
  {
    if cases != [] {
      var n := |cases| - 1;
      DemandPositive(cases[..n], r);
      CountPositive(cases[n].firstRespondersDemanded, r);
      assert forall i :: 0 <= i < n ==> cases[..n][i] == cases[i];
    }
  }

  /** Replacing one case changes the demand by exactly the difference of the two cases' contributions. */
  lemma DemandReplace(cases: seq<Case>, k: nat, c: Case, r: string)
    requires k < |cases|
    ensures Demand(cases[k := c], r) == Demand(cases, r) - Contribution(cases[k], r) + Contribution(c, r)
  {
    var before, after := cases[..k], cases[k + 1..];
    assert cases == before + [cases[k]] + after;
    assert cases[k := c] == before + [c] + after;
    DemandConcat(before + [cases[k]], after, r);
    DemandConcat(before + [c], after, r);
    DemandConcat(before, [cases[k]], r);
    DemandConcat(before, [c], r);
    DemandSingle(c, r);
    DemandSingle(cases[k], r);
  }

  /** `update_responders` replaces and does not merge: an open case's old list stops counting and its new list counts. */
  lemma ReplacedRespondersDemand(cases: seq<Case>, k: nat, responders: seq<string>, r: string)
    requires k < |cases| && !cases[k].closed
    ensures Demand(cases[k := cases[k].(firstRespondersDemanded := responders)], r)
            == Demand(cases, r) - Count(cases[k].firstRespondersDemanded, r) + Count(responders, r)
  {
    DemandReplace(cases, k, cases[k].(firstRespondersDemanded := responders), r);
  }

  /** Closing a case removes everything it demanded from the count. */
  lemma ClosingRemovesDemand(cases: seq<Case>, k: nat, r: string)
    requires k < |cases|
    ensures Demand(cases[k := cases[k].(closed := true)], r) == Demand(cases, r) - Contribution(cases[k], r)
  {
    DemandReplace(cases, k, cases[k].(closed := true), r);
  }

  /** The demand of a single case is its contribution. */
  lemma DemandSingle(c: Case, r: string)
    ensures Demand([c], r) == Contribution(c, r)
  {
    assert [c][..0] == [];
  }

  /**
   * `counts` is the tally of `cases` followed by the first entries of one more
   * responder list: exactly the labels with positive demand are keys, each
   * mapped to its demand.
   */
  ghost predicate Tallies(counts: map<string, int>, cases: seq<Case>, partial: seq<string>)
  {
    forall r :: (r in counts <==> Demand(cases, r) + Count(partial, r) > 0)
             && (r in counts ==> counts[r] == Demand(cases, r) + Count(partial, r))
  }

  /** Counting one more entry of a responder list keeps the tally exact. */
  lemma TallyEntry(counts: map<string, int>, cases: seq<Case>, partial: seq<string>, x: string)
    requires Tallies(counts, cases, partial)
    ensures Tallies(counts[x := (if x in counts then counts[x] else 0) + 1], cases, partial + [x])
  {
    assert (partial + [x])[..|partial|] == partial;
  }

  /** Once an open case's whole list is counted, the tally covers that case. */
  lemma TallyCase(counts: map<string, int>, cases: seq<Case>, c: Case)
    requires !c.closed && Tallies(counts, cases, c.firstRespondersDemanded)
    ensures Tallies(counts, cases + [c], [])
  {
    assert (cases + [c])[..|cases|] == cases;
  }

  /** A tally of the open cases is the demand over all cases; every key is demanded at least once. */
  lemma TallyComplete(counts: map<string, int>, cases: seq<Case>)
    requires Tallies(counts, Open(cases), [])
    ensures forall r :: r in counts <==> Demand(cases, r) > 0
    ensures forall r :: r in counts ==> counts[r] == Demand(cases, r) && counts[r] >= 1
  {
    forall r ensures Demand(Open(cases), r) == Demand(cases, r) {
      DemandOfOpen(cases, r);
    }
  }
}
