/**
 * The admin dashboard: four counters that start at zero and are set
 * once from the claim list and the expert list.
 */
module Home {
  import opened Js
  import opened Lists

  /**
   * The counters. `expertsActifs` is `experts.length`, which is undefined
   * when /viewexpert answered its error object instead of a list.
   */
  datatype Stats = Stats(totalSinistres: nat, enAttente: nat, resolus: nat, expertsActifs: JsValue)

  /**
   * How a `fetch` ended: a JSON list, the JSON error object a failing
   * handler answers with (`fetch` resolves on an HTTP 500), or no answer
   * at all, which makes the `await` throw.
   */
  datatype Reply<T> = Listed(items: T) | ErrorObject | NoAnswer

  /** A claim as the dashboard reads it: only its status matters. */
  datatype Claim = Claim(id: int, statut: JsValue)

  predicate Pending(c: Claim) {
    StrictEquals(c.statut, Str("en attente"))
  }

  predicate Resolved(c: Claim) {
    StrictEquals(c.statut, Str("resolu"))
  }

  /** `experts.length`: the list's length, undefined on the error object. */
  function LengthOf(experts: Reply<nat>): (v: JsValue)
    requires !experts.NoAnswer?
    ensures experts.Listed? ==> v == Number(Num(experts.items))
    ensures experts.ErrorObject? <==> v == Undefined
  {
    if experts.Listed? then Number(Num(experts.items)) else Undefined
  }

  /** The counters computed from the claim list and the experts' `length`. */
  function Compute(claims: seq<Claim>, experts: JsValue): (s: Stats)
    ensures s.totalSinistres == |claims| && s.expertsActifs == experts
    ensures s.enAttente == |Filter(claims, Pending)| && s.resolus == |Filter(claims, Resolved)|
    ensures s.enAttente + s.resolus <= s.totalSinistres
  {
    CountDisjoint(claims, Pending, Resolved);
    Stats(|claims|, Count(claims, Pending), Count(claims, Resolved), experts)
  }

  /** The status test is exact: a capitalised or padded status is not pending. */
  lemma PendingIsExact(id: int)
    ensures !Pending(Claim(id, Str("En attente"))) && !Pending(Claim(id, Str("en attente ")))
    ensures !Resolved(Claim(id, Str("résolu")))
  {
    assert Str("En attente") != Str("en attente");
  }

  /** Every claim that counts as pending is one of the claims, and each pending claim counts. */
  lemma PendingCountsExactlyPending(claims: seq<Claim>)
    ensures forall c :: c in Filter(claims, Pending) <==> c in claims && c.statut == Str("en attente")
  {
    FilterMembership(claims, Pending);
  }

  class Dashboard {
    var stats: Stats

    /** The counters before the first fetch. */
    constructor()
      ensures stats == Stats(0, 0, 0, Number(Num(0)))
    {
      stats := Stats(0, 0, 0, Number(Num(0)));
    }

    /**
     * `fetchData`. The claim answer must be a list: anything else throws,
     * at the `await` or at `.filter` on the error object, and the caught
     * error leaves the counters as they were. The experts answer only has
     * to arrive: its error object sets the claim counters and an undefined
     * expert count.
     */
    method FetchData(claims: Reply<seq<Claim>>, experts: Reply<nat>)
      modifies this
      ensures claims.Listed? && !experts.NoAnswer? ==> stats == Compute(claims.items, LengthOf(experts))
      ensures !claims.Listed? || experts.NoAnswer? ==> stats == old(stats)
    {
      if claims.Listed? && !experts.NoAnswer? {
        stats := Compute(claims.items, LengthOf(experts));
      }
    }
  }

  /** A fresh dashboard whose claim fetch fails, or whose experts fetch gets no answer, still shows zeros. */
  method FailedFetchShowsZeros(claims: Reply<seq<Claim>>, experts: Reply<nat>) returns (s: Stats)
    ensures !claims.Listed? || experts.NoAnswer? ==> s == Stats(0, 0, 0, Number(Num(0)))
  {
    var d := new Dashboard();
    d.FetchData(claims, experts);
    s := d.stats;
  }

  /** A failing /viewexpert does not stop the claim counters: they are set, and the expert count becomes undefined. */
  method ExpertErrorKeepsClaimCounts(claims: seq<Claim>) returns (s: Stats)
    ensures s.totalSinistres == |claims| && s.enAttente + s.resolus <= |claims|
    ensures s.enAttente == |Filter(claims, Pending)| && s.resolus == |Filter(claims, Resolved)|
    ensures s.expertsActifs == Undefined
  {
    var d := new Dashboard();
    d.FetchData(Listed(claims), ErrorObject);
    s := d.stats;
  }
}
