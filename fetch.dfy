/**
 * The fetcher (pkg/usecase/fetch.go): it saves the current sell rate,
 * copies the exchange's contracts of registered open orders into the
 * repository, and closes the registered orders the exchange no longer
 * lists as open.
 *
 * The repository is modelled by the state the fetcher changes in it: the
 * saved rates, the stored orders and the batches passed to
 * `UpsertContracts`. Exchange answers and repository failures are inputs.
 */
module Fetch {
  import opened Wrappers
  import opened Model

  /**
   * Failures the repository may answer with. `GetOpenOrders` is asked twice,
   * once by `fetchContracts` and once by `fetchOrders`, and each call may
   * fail on its own.
   */
  datatype RepositoryFaults = RepositoryFaults(
    openOrdersForContracts: Option<string>,
    openOrdersForOrders: Option<string>,
    addRates: Option<string>,
    upsertContracts: Option<string>,
    updateStatus: nat -> Option<string>)

  /** Whether some order of `oo` has id `id`. */
  predicate HasId(oo: seq<Order>, id: nat)
  {
    exists k :: 0 <= k < |oo| && oo[k].id == id
  }

  /** The stored orders the repository reports as open, in stored order. */
  function OpenOrders(stored: seq<Order>): (oo: seq<Order>)
    ensures forall o :: o in oo <==> o in stored && o.status == Open
  {
    if stored == [] then []
    else
      var last := stored[|stored| - 1];
      OpenOrders(stored[..|stored| - 1]) + (if last.status == Open then [last] else [])
  }

  /** The contracts of `cc` that belong to an order of `oo`, in exchange order. */
  function Targets(cc: seq<Contract>, oo: seq<Order>): seq<Contract>
  {
    if cc == [] then []
    else Targets(cc[..|cc| - 1], oo) + (if HasId(oo, cc[|cc| - 1].orderId) then [cc[|cc| - 1]] else [])
  }

  /** A contract is a target exactly when the exchange returned it and one of the orders placed it. */
  lemma {:induction false} TargetsMembership(cc: seq<Contract>, oo: seq<Order>, c: Contract)
    ensures c in Targets(cc, oo) <==> c in cc && HasId(oo, c.orderId)
  {
    if cc != [] {
      TargetsMembership(cc[..|cc| - 1], oo, c);
      assert cc == cc[..|cc| - 1] + [cc[|cc| - 1]];
    }
  }

  /** Targets are a filter: no contract is repeated or invented, and none is lost when every order is known. */
  lemma {:induction false} TargetsCount(cc: seq<Contract>, oo: seq<Order>, c: Contract)
    ensures multiset(Targets(cc, oo))[c] == if HasId(oo, c.orderId) then multiset(cc)[c] else 0
  {
    if cc != [] {
      TargetsCount(cc[..|cc| - 1], oo, c);
      assert cc == cc[..|cc| - 1] + [cc[|cc| - 1]];
    }
  }

  /** The registered open orders the exchange no longer lists, in registered order. */
  function Vanished(registered: seq<Order>, exchangeOpen: seq<Order>): seq<Order>
  {
    if registered == [] then []
    else
      var last := registered[|registered| - 1];
      Vanished(registered[..|registered| - 1], exchangeOpen) + (if HasId(exchangeOpen, last.id) then [] else [last])
  }

  lemma {:induction false} VanishedMembership(registered: seq<Order>, exchangeOpen: seq<Order>, o: Order)
    ensures o in Vanished(registered, exchangeOpen) <==> o in registered && !HasId(exchangeOpen, o.id)
  {
    if registered != [] {
      VanishedMembership(registered[..|registered| - 1], exchangeOpen, o);
      assert registered == registered[..|registered| - 1] + [registered[|registered| - 1]];
    }
  }

  /** `UpdateStatus(id, Closed)`: every stored order with that id is closed. */
  function CloseId(stored: seq<Order>, id: nat): (s: seq<Order>)
    ensures |s| == |stored|
  {
    seq(|stored|, k requires 0 <= k < |stored| =>
      if stored[k].id == id then stored[k].(status := Closed) else stored[k])
  }

  /** Closing the orders of `done` one after another. */
  function CloseAll(stored: seq<Order>, done: seq<Order>): (s: seq<Order>)
    ensures |s| == |stored|
  {
    if done == [] then stored else CloseId(CloseAll(stored, done[..|done| - 1]), done[|done| - 1].id)
  }

  /** After closing `done`, an order is closed exactly when its id is among them, and otherwise unchanged. */
  lemma {:induction false} CloseAllEffect(stored: seq<Order>, done: seq<Order>, k: nat)
    requires k < |stored|
    ensures CloseAll(stored, done)[k] == if HasId(done, stored[k].id) then stored[k].(status := Closed) else stored[k]
  {
    if done != [] {
      var front := done[..|done| - 1];
      CloseAllEffect(stored, front, k);
      assert HasId(done, stored[k].id) <==> HasId(front, stored[k].id) || done[|done| - 1].id == stored[k].id by {
        if HasId(done, stored[k].id) {
          var j :| 0 <= j < |done| && done[j].id == stored[k].id;
          if j < |done| - 1 {
            assert front[j] == done[j];
          }
        }
        if HasId(front, stored[k].id) {
          var j :| 0 <= j < |front| && front[j].id == stored[k].id;
          assert done[j] == front[j];
        }
      }
    }
  }

  /**
   * What a successful `fetchOrders` does to the stored orders: a registered
   * open order whose id the exchange no longer lists is closed, every order
   * whose id the exchange still lists is untouched.
   */
  lemma FetchOrdersEffect(stored: seq<Order>, exchangeOpen: seq<Order>, k: nat)
    requires k < |stored|
    ensures stored[k].status == Open && !HasId(exchangeOpen, stored[k].id) ==>
      CloseAll(stored, Vanished(OpenOrders(stored), exchangeOpen))[k].status == Closed
    ensures HasId(exchangeOpen, stored[k].id) ==>
      CloseAll(stored, Vanished(OpenOrders(stored), exchangeOpen))[k] == stored[k]
  {
    var v := Vanished(OpenOrders(stored), exchangeOpen);
    CloseAllEffect(stored, v, k);
    if stored[k].status == Open && !HasId(exchangeOpen, stored[k].id) {
      VanishedMembership(OpenOrders(stored), exchangeOpen, stored[k]);
      var j :| 0 <= j < |v| && v[j] == stored[k];
    }
    if HasId(exchangeOpen, stored[k].id) && HasId(v, stored[k].id) {
      var j :| 0 <= j < |v| && v[j].id == stored[k].id;
      VanishedMembership(OpenOrders(stored), exchangeOpen, v[j]);
    }
  }

  /** The inner search of both reconciliation loops: does an order of `oo` have this id? */
  method FindId(oo: seq<Order>, id: nat) returns (found: bool)
    ensures found <==> HasId(oo, id)
  {
    var i := 0;
    while i < |oo|
      invariant 0 <= i <= |oo|
      invariant forall k :: 0 <= k < i ==> oo[k].id != id
    {
      if oo[i].id == id {
        return true;
      }
      i := i + 1;
    }
    return false;
  }

  /** The contract loop of `fetchContracts`: each exchange contract kept once when an order has its order id. */
  method SelectTargets(cc: seq<Contract>, oo: seq<Order>) returns (targets: seq<Contract>)
    ensures targets == Targets(cc, oo)
  {
    targets := [];
    var i := 0;
    while i < |cc|
      invariant 0 <= i <= |cc|
      invariant targets == Targets(cc[..i], oo)
    {
      var found := FindId(oo, cc[i].orderId);
      assert cc[..i + 1][..i] == cc[..i];
      if found {
        targets := targets + [cc[i]];
      }
      i := i + 1;
    }
    assert cc[..|cc|] == cc;
  }

  /**
   * How far the `fetchOrders` loop got over the registered open orders
   * `registered`: the first `examined` were handled, every vanished one
   * among them was updated without error and applied to `before`, giving
   * `after`; on an error, order `examined` has vanished and its update
   * failed with it.
   */
  predicate ClosedUntil(before: seq<Order>, registered: seq<Order>, exchangeOpen: seq<Order>,
                        update: nat -> Option<string>, after: seq<Order>, examined: nat, r: Result<()>)
  {
    examined <= |registered|
    && after == CloseAll(before, Vanished(registered[..examined], exchangeOpen))
    && Updated(update, Vanished(registered[..examined], exchangeOpen))
    && (r.Ok? <==> examined == |registered|)
    && (r.Err? ==> !HasId(exchangeOpen, registered[examined].id) && update(registered[examined].id) == Some(r.msg))
  }

  /** The `fetchOrders` loop fails only on a vanished order whose update fails. */
  lemma ClosedUntilOkWhenUpdated(before: seq<Order>, registered: seq<Order>, exchangeOpen: seq<Order>,
                                 update: nat -> Option<string>, after: seq<Order>, examined: nat, r: Result<()>)
    requires ClosedUntil(before, registered, exchangeOpen, update, after, examined, r)
    requires Updated(update, Vanished(registered, exchangeOpen))
    ensures r.Ok? && after == CloseAll(before, Vanished(registered, exchangeOpen))
  {
    if r.Err? {
      var o := registered[examined];
      VanishedMembership(registered, exchangeOpen, o);
      assert false;
    }
    assert registered[..examined] == registered;
  }

  /** Every order of `done` was updated without error. */
  predicate Updated(update: nat -> Option<string>, done: seq<Order>)
  {
    forall k :: 0 <= k < |done| ==> update(done[k].id).None?
  }

  /** The loop of `fetchOrders` over the registered open orders `registered` of `stored`. */
  method CloseVanished(stored: seq<Order>, registered: seq<Order>, exchangeOpen: seq<Order>, update: nat -> Option<string>)
    returns (after: seq<Order>, examined: nat, r: Result<()>)
    ensures ClosedUntil(stored, registered, exchangeOpen, update, after, examined, r)
  {
    after := stored;
    examined := 0;
    while examined < |registered|
      invariant examined <= |registered|
      invariant after == CloseAll(stored, Vanished(registered[..examined], exchangeOpen))
      invariant Updated(update, Vanished(registered[..examined], exchangeOpen))
    {
      var o := registered[examined];
      var stillOpen := FindId(exchangeOpen, o.id);
      if !stillOpen {
        var e := update(o.id);
        if e.Some? {
          return after, examined, Err(e.value);
        }
        after := CloseId(after, o.id);
      }
      ClosedStep(stored, registered, exchangeOpen, update, examined);
      examined := examined + 1;
    }
    return after, examined, Ok(());
  }

  /** `fetchContracts` gets through: the repository answers, and with open orders the exchange answers and the upsert succeeds. */
  predicate ContractsFetched(stored: seq<Order>, exchangeContracts: Result<seq<Contract>>, faults: RepositoryFaults)
  {
    faults.openOrdersForContracts.None?
    && (OpenOrders(stored) == [] || (exchangeContracts.Ok? && faults.upsertContracts.None?))
  }

  /** The error `fetchContracts` returns when it does not get through: the first failing call's. */
  function ContractsError(stored: seq<Order>, exchangeContracts: Result<seq<Contract>>, faults: RepositoryFaults): (e: string)
    requires !ContractsFetched(stored, exchangeContracts, faults)
    ensures faults.openOrdersForContracts.Some? ==> e == faults.openOrdersForContracts.value
    ensures faults.openOrdersForContracts.None? && exchangeContracts.Err? ==> e == exchangeContracts.msg
    ensures faults.openOrdersForContracts.None? && exchangeContracts.Ok? ==> e == faults.upsertContracts.value
  {
    if faults.openOrdersForContracts.Some? then faults.openOrdersForContracts.value
    else if exchangeContracts.Err? then exchangeContracts.msg
    else faults.upsertContracts.value
  }

  /** The batches a successful `fetchContracts` upserts: none without open orders, else the targets. */
  function Upserted(stored: seq<Order>, exchangeContracts: Result<seq<Contract>>): (b: seq<seq<Contract>>)
    ensures |b| <= 1
    ensures OpenOrders(stored) == [] ==> b == []
  {
    if OpenOrders(stored) == [] || exchangeContracts.Err? then []
    else [Targets(exchangeContracts.value, OpenOrders(stored))]
  }

  class Fetcher {
    const pair: CurrencyPair
    /** Sell rates saved by `AddRates`, with the time of saving. */
    var savedRates: seq<(real, int)>
    /** The orders the repository holds. */
    var stored: seq<Order>
    /** The batches passed to `UpsertContracts`, oldest first. */
    var upserts: seq<seq<Contract>>

    constructor (pair: CurrencyPair, stored: seq<Order>)
      ensures this.pair == pair && this.stored == stored && savedRates == [] && upserts == []
    {
      this.pair := pair;
      this.stored := stored;
      savedRates := [];
      upserts := [];
    }

    /**
     * `fetchContracts`: with no registered open order nothing is asked of
     * the exchange and nothing is written; otherwise the exchange contracts
     * of registered open orders are upserted in one batch.
     */
    method FetchContracts(exchangeContracts: Result<seq<Contract>>, faults: RepositoryFaults) returns (r: Result<()>)
      modifies this
      ensures stored == old(stored) && savedRates == old(savedRates)
      ensures faults.openOrdersForContracts.Some? ==> r == Err(faults.openOrdersForContracts.value) && upserts == old(upserts)
      ensures faults.openOrdersForContracts.None? && OpenOrders(stored) == [] ==> r == Ok(()) && upserts == old(upserts)
      ensures faults.openOrdersForContracts.None? && OpenOrders(stored) != [] && exchangeContracts.Err? ==>
        r == Err(exchangeContracts.msg) && upserts == old(upserts)
      ensures faults.openOrdersForContracts.None? && OpenOrders(stored) != [] && exchangeContracts.Ok? ==>
        (faults.upsertContracts.Some? ==> r == Err(faults.upsertContracts.value) && upserts == old(upserts))
        && (faults.upsertContracts.None? ==>
              r == Ok(()) && upserts == old(upserts) + [Targets(exchangeContracts.value, OpenOrders(stored))])
    {
      if faults.openOrdersForContracts.Some? {
        return Err(faults.openOrdersForContracts.value);
      }
      var oo := OpenOrders(stored);
      if |oo| == 0 {
        return Ok(());
      }
      if exchangeContracts.Err? {
        return Err(exchangeContracts.msg);
      }
      var targets := SelectTargets(exchangeContracts.value, oo);
      if faults.upsertContracts.Some? {
        return Err(faults.upsertContracts.value);
      }
      upserts := upserts + [targets];
      return Ok(());
    }

    /**
     * `fetchOrders`: each registered open order the exchange no longer
     * lists is closed in turn; a failing update stops the loop with its
     * error. `examined` counts the registered open orders handled.
     */
    method FetchOrders(exchangeOpen: Result<seq<Order>>, faults: RepositoryFaults) returns (examined: nat, r: Result<()>)
      modifies this
      ensures savedRates == old(savedRates) && upserts == old(upserts)
      ensures exchangeOpen.Err? ==> r == Err(exchangeOpen.msg) && examined == 0 && stored == old(stored)
      ensures exchangeOpen.Ok? && faults.openOrdersForOrders.Some? ==>
        r == Err(faults.openOrdersForOrders.value) && examined == 0 && stored == old(stored)
      ensures exchangeOpen.Ok? && faults.openOrdersForOrders.None? ==>
        ClosedUntil(old(stored), OpenOrders(old(stored)), exchangeOpen.value, faults.updateStatus, stored, examined, r)
    {
      if exchangeOpen.Err? {
        return 0, Err(exchangeOpen.msg);
      }
      if faults.openOrdersForOrders.Some? {
        return 0, Err(faults.openOrdersForOrders.value);
      }
      stored, examined, r := CloseVanished(stored, OpenOrders(stored), exchangeOpen.value, faults.updateStatus);
    }

    /**
     * `Fetch`: save the exchange's sell rate at `now`, then `fetchContracts`,
     * then `fetchOrders`, stopping at the first error. Each stage's failure
     * is returned as it is and leaves the later stages undone.
     */
    method Fetch(orderRate: Result<real>, now: int, exchangeContracts: Result<seq<Contract>>,
                 exchangeOpen: Result<seq<Order>>, faults: RepositoryFaults) returns (r: Result<()>)
      modifies this
      ensures orderRate.Err? ==>
        r == Err(orderRate.msg) && savedRates == old(savedRates) && stored == old(stored) && upserts == old(upserts)
      ensures orderRate.Ok? && faults.addRates.Some? ==>
        r == Err(faults.addRates.value) && savedRates == old(savedRates) && stored == old(stored) && upserts == old(upserts)
      ensures orderRate.Ok? && faults.addRates.None? ==> savedRates == old(savedRates) + [(orderRate.value, now)]
      ensures orderRate.Ok? && faults.addRates.None? && !ContractsFetched(old(stored), exchangeContracts, faults) ==>
        r == Err(ContractsError(old(stored), exchangeContracts, faults)) && stored == old(stored) && upserts == old(upserts)
      ensures orderRate.Ok? && faults.addRates.None? && ContractsFetched(old(stored), exchangeContracts, faults) ==>
        upserts == old(upserts) + Upserted(old(stored), exchangeContracts)
        && (exchangeOpen.Err? ==> r == Err(exchangeOpen.msg) && stored == old(stored))
        && (exchangeOpen.Ok? && faults.openOrdersForOrders.Some? ==>
              r == Err(faults.openOrdersForOrders.value) && stored == old(stored))
        && (exchangeOpen.Ok? && faults.openOrdersForOrders.None? ==>
              exists examined :: ClosedUntil(old(stored), OpenOrders(old(stored)), exchangeOpen.value,
                                             faults.updateStatus, stored, examined, r))
      ensures (orderRate.Ok? && faults.addRates.None? && ContractsFetched(old(stored), exchangeContracts, faults)
               && exchangeOpen.Ok? && faults.openOrdersForOrders.None?
               && Updated(faults.updateStatus, Vanished(OpenOrders(old(stored)), exchangeOpen.value)))
        ==> r.Ok?
      ensures r.Ok? ==>
        orderRate.Ok? && faults.addRates.None? && faults.openOrdersForContracts.None?
        && faults.openOrdersForOrders.None? && exchangeOpen.Ok?
        && stored == CloseAll(old(stored), Vanished(OpenOrders(old(stored)), exchangeOpen.value))
      ensures r.Ok? && OpenOrders(old(stored)) == [] ==> upserts == old(upserts)
      ensures r.Ok? && OpenOrders(old(stored)) != [] ==>
        exchangeContracts.Ok? && upserts == old(upserts) + [Targets(exchangeContracts.value, OpenOrders(old(stored)))]
    {
      if orderRate.Err? {
        return Err(orderRate.msg);
      }
      if faults.addRates.Some? {
        return Err(faults.addRates.value);
      }
      savedRates := savedRates + [(orderRate.value, now)];
      r := FetchContracts(exchangeContracts, faults);
      if r.Err? {
        return r;
      }
      var examined;
      examined, r := FetchOrders(exchangeOpen, faults);
      if exchangeOpen.Ok? && faults.openOrdersForOrders.None? {
        ghost var registered := OpenOrders(old(stored));
        assert ClosedUntil(old(stored), registered, exchangeOpen.value, faults.updateStatus, stored, examined, r);
        if Updated(faults.updateStatus, Vanished(registered, exchangeOpen.value)) {
          ClosedUntilOkWhenUpdated(old(stored), registered, exchangeOpen.value, faults.updateStatus, stored, examined, r);
        }
        if r.Ok? {
          assert registered[..|registered|] == registered;
        }
      }
    }
  }

  /**
   * One turn of the `fetchOrders` loop: the orders vanished among the
   * first `i + 1` registered ones are those among the first `i`, plus
   * order `i` when the exchange lacks its id.
   */
  lemma VanishedStep(registered: seq<Order>, exchangeOpen: seq<Order>, i: nat)
    requires i < |registered|
    ensures Vanished(registered[..i + 1], exchangeOpen)
      == Vanished(registered[..i], exchangeOpen)
        + (if HasId(exchangeOpen, registered[i].id) then [] else [registered[i]])
  {
    assert registered[..i + 1][..i] == registered[..i];
  }

  /** Closing one more order after `done`. */
  lemma CloseAllAppend(stored: seq<Order>, done: seq<Order>, o: Order)
    ensures CloseAll(stored, done + [o]) == CloseId(CloseAll(stored, done), o.id)
  {
    assert (done + [o])[..|done|] == done;
  }

  /** One turn of the `fetchOrders` loop keeps its invariant. */
  lemma ClosedStep(stored: seq<Order>, registered: seq<Order>, exchangeOpen: seq<Order>,
                   update: nat -> Option<string>, i: nat)
    requires i < |registered|
    requires Updated(update, Vanished(registered[..i], exchangeOpen))
    requires !HasId(exchangeOpen, registered[i].id) ==> update(registered[i].id).None?
    ensures Updated(update, Vanished(registered[..i + 1], exchangeOpen))
    ensures CloseAll(stored, Vanished(registered[..i + 1], exchangeOpen))
      == if HasId(exchangeOpen, registered[i].id) then CloseAll(stored, Vanished(registered[..i], exchangeOpen))
         else CloseId(CloseAll(stored, Vanished(registered[..i], exchangeOpen)), registered[i].id)
  {
    var done := Vanished(registered[..i], exchangeOpen);
    VanishedStep(registered, exchangeOpen, i);
    if HasId(exchangeOpen, registered[i].id) {
      assert done + [] == done;
    } else {
      CloseAllAppend(stored, done, registered[i]);
    }
  }
}
