/**
 * React context read as explicit context passing. A render path is the list of
 * ancestors of the reading component, outermost first; `offers` tells which
 * ancestors are providers of the context and with what value. A read returns the
 * value of the nearest (innermost) provider, or the context's default.
 */
module Scope {
  import opened Wrappers

  /** The value a `useContext` call sees below `ancestors`. */
  function Read<A, T>(ancestors: seq<A>, offers: A -> Option<T>, default: T): (v: T)
    ensures v == default || exists i :: 0 <= i < |ancestors| && offers(ancestors[i]) == Some(v)
    ensures (forall i :: 0 <= i < |ancestors| ==> offers(ancestors[i]).None?) ==> v == default
    ensures (exists i :: 0 <= i < |ancestors| && offers(ancestors[i]).Some?) ==>
              exists i :: 0 <= i < |ancestors| && offers(ancestors[i]) == Some(v)
    decreases |ancestors|
  {
    if ancestors == [] then default
    else
      var last := ancestors[|ancestors| - 1];
      match offers(last)
      case Some(p) => p
      case None => Read(ancestors[..|ancestors| - 1], offers, default)
  }

  /** The nearest provider wins: a provider at index k with no provider below it decides the read. */
  lemma {:induction false} ReadNearest<A, T>(ancestors: seq<A>, offers: A -> Option<T>, default: T, k: nat)
    requires k < |ancestors| && offers(ancestors[k]).Some?
    requires forall j :: k < j < |ancestors| ==> offers(ancestors[j]).None?
    ensures Read(ancestors, offers, default) == offers(ancestors[k]).value
    decreases |ancestors|
  {
    if k < |ancestors| - 1 {
      var prefix := ancestors[..|ancestors| - 1];
      assert prefix[k] == ancestors[k];
      forall j | k < j < |prefix| ensures offers(prefix[j]).None? {
        assert prefix[j] == ancestors[j];
      }
      ReadNearest(prefix, offers, default, k);
    }
  }

  /** Ancestors above the reader that provide nothing never change what it reads. */
  lemma {:induction false} ReadIgnoresNonProviders<A, T>(ancestors: seq<A>, others: seq<A>, offers: A -> Option<T>, default: T)
    requires forall j :: 0 <= j < |others| ==> offers(others[j]).None?
    ensures Read(ancestors + others, offers, default) == Read(ancestors, offers, default)
    decreases |others|
  {
    if others == [] {
      assert ancestors + others == ancestors;
    } else {
      var all := ancestors + others;
      assert all[..|all| - 1] == ancestors + others[..|others| - 1];
      assert all[|all| - 1] == others[|others| - 1];
      assert offers(others[|others| - 1]).None?;
      ReadIgnoresNonProviders(ancestors, others[..|others| - 1], offers, default);
    }
  }
}
