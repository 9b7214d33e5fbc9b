/**
 Confirming which identity a BLS key belongs to. Identities list owner keys; an owner key is an
 address, whose BLS keys are looked up, or a BLS key itself, which counts only if the node's own
 heartbeat names the same identity.
 */
module Keybase {
  import opened Collections

  type Identity = string
  type Key = string

  const BLS_LENGTH := 192

  /** `ownerBlses` lacks the addresses for which the lookup fails. */
  datatype Lookups = Lookups(
    addresses: set<Key>,
    providers: set<Key>,
    ownerBlses: map<Key, seq<Key>>,
    heartbeat: map<Key, Identity>)

  datatype Listing = Listing(identity: Identity, key: Key)

  /** The owner keys of the identities, in the order they are processed; an identity without owners lists nothing. */
  function Listings(identities: seq<Identity>, owners: map<Identity, seq<Key>>): seq<Listing> {
    if identities == [] then []
    else
      var last := identities[|identities| - 1];
      Listings(identities[..|identities| - 1], owners) + KeysOf(last, OwnersOf(owners, last))
  }

  function OwnersOf(owners: map<Identity, seq<Key>>, identity: Identity): seq<Key> {
    if identity in owners then owners[identity] else []
  }

  function KeysOf(identity: Identity, keys: seq<Key>): seq<Listing> {
    seq(|keys|, i requires 0 <= i < |keys| => Listing(identity, keys[i]))
  }

  // ----- the specification --------------------------------------------------------------------

  /** The listing names an address that owns `bls`. */
  predicate OwnerClaim(e: Lookups, l: Listing, bls: Key) {
    l.key in e.addresses && l.key in e.ownerBlses && bls in e.ownerBlses[l.key]
  }

  /** The listing names `bls` itself and the node's heartbeat agrees. */
  predicate DirectClaim(e: Lookups, l: Listing, bls: Key) {
    l.key == bls && |bls| == BLS_LENGTH && bls in e.heartbeat && e.heartbeat[bls] == l.identity
  }

  /** The lookup error of an address that is no staking provider is not caught. */
  predicate Fails(e: Lookups, l: Listing) {
    l.key in e.addresses && l.key !in e.ownerBlses && l.key !in e.providers
  }

  ghost predicate LastOwnerClaim(e: Lookups, ls: seq<Listing>, i: int, bls: Key) {
    0 <= i < |ls| && OwnerClaim(e, ls[i], bls) && forall j :: i < j < |ls| ==> !OwnerClaim(e, ls[j], bls)
  }

  ghost predicate Owned(e: Lookups, ls: seq<Listing>, bls: Key) {
    exists i :: 0 <= i < |ls| && OwnerClaim(e, ls[i], bls)
  }

  ghost predicate Direct(e: Lookups, ls: seq<Listing>, bls: Key) {
    exists i :: 0 <= i < |ls| && DirectClaim(e, ls[i], bls)
  }

  /** Owner claims win, the last one over the others; failing those, a direct claim counts. */
  ghost predicate Confirmed(e: Lookups, ls: seq<Listing>, confirmations: map<Key, Identity>) {
    && (forall bls :: bls in confirmations <==> Owned(e, ls, bls) || Direct(e, ls, bls))
    && (forall bls, i :: LastOwnerClaim(e, ls, i, bls) ==> bls in confirmations && confirmations[bls] == ls[i].identity)
    && (forall bls :: !Owned(e, ls, bls) && bls in confirmations ==>
          bls in e.heartbeat && confirmations[bls] == e.heartbeat[bls])
  }

  /** A listed staking provider is confirmed for the last identity listing it. */
  ghost predicate ProvidersConfirmed(e: Lookups, ls: seq<Listing>, providers: map<Key, Identity>) {
    && (forall p :: p in providers <==>
          p in e.addresses && p in e.providers && exists i :: 0 <= i < |ls| && ls[i].key == p)
    && forall i :: 0 <= i < |ls| && ls[i].key in e.addresses && ls[i].key in e.providers &&
         (forall j :: i < j < |ls| ==> ls[j].key != ls[i].key)
         ==> ls[i].key in providers && providers[ls[i].key] == ls[i].identity
  }

  ghost predicate AnyFails(e: Lookups, ls: seq<Listing>) {
    exists i :: 0 <= i < |ls| && Fails(e, ls[i])
  }

  // ----- one listing --------------------------------------------------------------------------

  function Assigned(m: map<Key, Identity>, blses: seq<Key>, identity: Identity): map<Key, Identity> {
    m + map b | b in blses :: identity
  }

  function AfterOwner(e: Lookups, m: map<Key, Identity>, l: Listing): map<Key, Identity> {
    if l.key in e.addresses && l.key in e.ownerBlses then Assigned(m, e.ownerBlses[l.key], l.identity) else m
  }

  function AfterDirect(e: Lookups, m: map<Key, Identity>, l: Listing): map<Key, Identity> {
    if DirectClaim(e, l, l.key) && l.key !in m then m[l.key := l.identity] else m
  }

  lemma ClaimsSnoc(e: Lookups, ls: seq<Listing>, l: Listing, bls: Key)
    ensures Owned(e, ls + [l], bls) <==> Owned(e, ls, bls) || OwnerClaim(e, l, bls)
    ensures Direct(e, ls + [l], bls) <==> Direct(e, ls, bls) || DirectClaim(e, l, bls)
  {
    var next := ls + [l];
    assert next[|ls|] == l && forall i :: 0 <= i < |ls| ==> next[i] == ls[i];
  }

  lemma ConfirmedSnoc(e: Lookups, ls: seq<Listing>, m: map<Key, Identity>, l: Listing)
    requires Confirmed(e, ls, m)
    ensures Confirmed(e, ls + [l], AfterDirect(e, AfterOwner(e, m, l), l))
  {
    var next := ls + [l];
    var m' := AfterDirect(e, AfterOwner(e, m, l), l);
    forall bls { ClaimsSnoc(e, ls, l, bls); }
    forall bls, i | LastOwnerClaim(e, next, i, bls) ensures bls in m' && m'[bls] == next[i].identity {
      if i < |ls| {
        assert next[|ls|] == l && !OwnerClaim(e, l, bls);
        assert forall j :: i < j < |ls| ==> next[j] == ls[j];
        assert LastOwnerClaim(e, ls, i, bls);
      }
    }
  }

  lemma {:induction false} LastClaimExists(e: Lookups, ls: seq<Listing>, bls: Key) returns (i: int)
    requires Owned(e, ls, bls)
    ensures LastOwnerClaim(e, ls, i, bls)
  {
    var n := |ls| - 1;
    if OwnerClaim(e, ls[n], bls) {
      i := n;
    } else {
      assert ls == ls[..n] + [ls[n]];
      ClaimsSnoc(e, ls[..n], ls[n], bls);
      i := LastClaimExists(e, ls[..n], bls);
      forall j | i < j < |ls| ensures !OwnerClaim(e, ls[j], bls) {
        if j < n { assert ls[..n][j] == ls[j]; }
      }
    }
  }

  // ----- results ------------------------------------------------------------------------------

  /** The specification leaves nothing open: it determines the confirmation of every key. */
  lemma ConfirmedIsUnique(e: Lookups, ls: seq<Listing>, m: map<Key, Identity>, m': map<Key, Identity>)
    requires Confirmed(e, ls, m) && Confirmed(e, ls, m')
    ensures m == m'
  {
    forall bls | bls in m ensures bls in m' && m[bls] == m'[bls] {
      if Owned(e, ls, bls) { var i := LastClaimExists(e, ls, bls); }
    }
  }

  /** The address owns the key, as far as its keys can be looked up. */
  predicate Owns(e: Lookups, address: Key, bls: Key) {
    address in e.addresses && address in e.ownerBlses && bls in e.ownerBlses[address]
  }

  ghost predicate IsLastOwner(e: Lookups, ls: seq<Listing>, i: int, bls: Key) {
    0 <= i < |ls| && Owns(e, ls[i].key, bls) && forall j :: i < j < |ls| ==> !Owns(e, ls[j].key, bls)
  }

  /**
   A key is confirmed for the last identity that lists an address owning it; if none does, then for
   the one its heartbeat names if that one lists the key, which has 192 letters, and else for none.
   */
  lemma ConfirmedFor(e: Lookups, ls: seq<Listing>, m: map<Key, Identity>, bls: Key)
    requires Confirmed(e, ls, m)
    ensures forall i :: IsLastOwner(e, ls, i, bls) ==> bls in m && m[bls] == ls[i].identity
    ensures (forall i :: 0 <= i < |ls| ==> !Owns(e, ls[i].key, bls)) ==>
              && (bls in m <==> |bls| == 192 && bls in e.heartbeat && Listing(e.heartbeat[bls], bls) in ls)
              && (bls in m ==> m[bls] == e.heartbeat[bls])
  {
    forall i | IsLastOwner(e, ls, i, bls) ensures LastOwnerClaim(e, ls, i, bls) {
    }
    DirectExactly(e, ls, bls);
    assert Owned(e, ls, bls) ==> exists i :: 0 <= i < |ls| && Owns(e, ls[i].key, bls);
  }

  lemma DirectExactly(e: Lookups, ls: seq<Listing>, bls: Key)
    ensures Direct(e, ls, bls) <==> |bls| == 192 && bls in e.heartbeat && Listing(e.heartbeat[bls], bls) in ls
  {
    if i :| 0 <= i < |ls| && DirectClaim(e, ls[i], bls) {
      assert ls[i] == Listing(e.heartbeat[bls], bls);
    }
  }

  /** Every key's owner claims come from one identity. */
  ghost predicate Undisputed(e: Lookups, ls: seq<Listing>) {
    forall bls, i, j :: 0 <= i < |ls| && 0 <= j < |ls| && OwnerClaim(e, ls[i], bls) && OwnerClaim(e, ls[j], bls) ==>
      ls[i].identity == ls[j].identity
  }

  /** Unless two identities claim the same key through its owner, the processing order has no effect. */
  lemma OrderDoesNotMatter(
      e: Lookups, ls: seq<Listing>, ls': seq<Listing>, m: map<Key, Identity>, m': map<Key, Identity>)
    requires Confirmed(e, ls, m) && Confirmed(e, ls', m') && Undisputed(e, ls)
    requires forall l :: l in ls <==> l in ls'
    ensures m == m'
  {
    forall bls ensures Owned(e, ls, bls) <==> Owned(e, ls', bls) {
      if Owned(e, ls, bls) { var i :| 0 <= i < |ls| && OwnerClaim(e, ls[i], bls); assert ls[i] in ls'; }
      if Owned(e, ls', bls) { var i :| 0 <= i < |ls'| && OwnerClaim(e, ls'[i], bls); assert ls'[i] in ls; }
    }
    forall bls ensures Direct(e, ls, bls) <==> Direct(e, ls', bls) {
      if Direct(e, ls, bls) { var i :| 0 <= i < |ls| && DirectClaim(e, ls[i], bls); assert ls[i] in ls'; }
      if Direct(e, ls', bls) { var i :| 0 <= i < |ls'| && DirectClaim(e, ls'[i], bls); assert ls'[i] in ls; }
    }
    forall bls | bls in m ensures bls in m' && m[bls] == m'[bls] {
      if Owned(e, ls, bls) {
        var i := LastClaimExists(e, ls, bls);
        var i' := LastClaimExists(e, ls', bls);
        assert ls'[i'] in ls;
      }
    }
  }

  /** The confirmations the listings lead to. */
  function Confirmations(e: Lookups, ls: seq<Listing>): map<Key, Identity> {
    if ls == [] then map[]
    else
      var l := ls[|ls| - 1];
      AfterDirect(e, AfterOwner(e, Confirmations(e, ls[..|ls| - 1]), l), l)
  }

  lemma {:induction false} ConfirmationsAreConfirmed(e: Lookups, ls: seq<Listing>)
    ensures Confirmed(e, ls, Confirmations(e, ls))
  {
    if ls != [] {
      var front, l := ls[..|ls| - 1], ls[|ls| - 1];
      ConfirmationsAreConfirmed(e, front);
      ConfirmedSnoc(e, front, Confirmations(e, front), l);
      assert ls == front + [l];
    }
  }

  /** The identity listed last has the last word on the keys it claims through their owners. */
  lemma LastIdentityWins(
      e: Lookups, front: seq<Identity>, x: Identity, owners: map<Identity, seq<Key>>, l: Listing, bls: Key)
    requires l in KeysOf(x, OwnersOf(owners, x)) && OwnerClaim(e, l, bls)
    ensures var m := Confirmations(e, Listings(front + [x], owners)); bls in m && m[bls] == x
  {
    var ls := Listings(front + [x], owners);
    var mine := KeysOf(x, OwnersOf(owners, x));
    assert (front + [x])[..|front|] == front;
    assert ls == Listings(front, owners) + mine;
    var i :| 0 <= i < |mine| && mine[i] == l;
    var n := |ls| - |mine|;
    assert ls[n + i] == l;
    ConfirmationsAreConfirmed(e, ls);
    var k := LastClaimExists(e, ls, bls);
    assert k >= n + i && ls[k] == mine[k - n];
  }

  /** Every listing is of one of the identities. */
  lemma {:induction false} ListingsAreOf(identities: seq<Identity>, owners: map<Identity, seq<Key>>)
    ensures forall l :: l in Listings(identities, owners) <==>
              l.identity in identities && l in KeysOf(l.identity, OwnersOf(owners, l.identity))
  {
    if identities != [] {
      var n := |identities| - 1;
      ListingsAreOf(identities[..n], owners);
      assert identities == identities[..n] + [identities[n]];
      assert forall l :: l in KeysOf(identities[n], OwnersOf(owners, identities[n])) ==> l.identity == identities[n];
    }
  }

  ghost predicate AnyOrderAgrees(e: Lookups, identities: seq<Identity>, owners: map<Identity, seq<Key>>) {
    forall order: seq<Identity> :: multiset(order) == multiset(identities) ==>
      Confirmations(e, Listings(order, owners)) == Confirmations(e, Listings(identities, owners))
  }

  lemma SameIdentities(order: seq<Identity>, identities: seq<Identity>)
    requires multiset(order) == multiset(identities)
    ensures forall x :: x in order <==> x in identities
  {
    forall x ensures x in order <==> x in identities { assert x in order <==> x in multiset(order); }
  }

  /** The order in which identities are processed has no effect exactly if no two claim a key through its owner. */
  lemma OrderDoesNotMatterIff(e: Lookups, identities: seq<Identity>, owners: map<Identity, seq<Key>>)
    ensures AnyOrderAgrees(e, identities, owners) <==> Undisputed(e, Listings(identities, owners))
  {
    var ls := Listings(identities, owners);
    ConfirmationsAreConfirmed(e, ls);
    if Undisputed(e, ls) {
      forall order: seq<Identity> | multiset(order) == multiset(identities)
        ensures Confirmations(e, Listings(order, owners)) == Confirmations(e, ls)
      {
        ConfirmationsAreConfirmed(e, Listings(order, owners));
        ListingsAreOf(identities, owners);
        ListingsAreOf(order, owners);
        SameIdentities(order, identities);
        OrderDoesNotMatter(e, ls, Listings(order, owners), Confirmations(e, ls),
            Confirmations(e, Listings(order, owners)));
      }
    } else {
      var bls, i, j :| 0 <= i < |ls| && 0 <= j < |ls| && OwnerClaim(e, ls[i], bls) && OwnerClaim(e, ls[j], bls) &&
      ls[i].identity != ls[j].identity;
      var a := PutLast(e, identities, owners, ls[i], bls);
      var b := PutLast(e, identities, owners, ls[j], bls);
      assert Confirmations(e, Listings(a, owners)) != Confirmations(e, Listings(b, owners));
    }
  }

  /** An order of the identities that ends with a given one. */
  lemma PutLast(
      e: Lookups, identities: seq<Identity>, owners: map<Identity, seq<Key>>, l: Listing, bls: Key)
      returns (order: seq<Identity>)
    requires l in Listings(identities, owners) && OwnerClaim(e, l, bls)
    ensures multiset(order) == multiset(identities)
    ensures var m := Confirmations(e, Listings(order, owners)); bls in m && m[bls] == l.identity
  {
    ListingsAreOf(identities, owners);
    var k :| 0 <= k < |identities| && identities[k] == l.identity;
    Removed(identities, k);
    order := Without(identities, k) + [l.identity];
    LastIdentityWins(e, Without(identities, k), l.identity, owners, l, bls);
  }

  // ----- the code -----------------------------------------------------------------------------

  function AfterProvider(e: Lookups, providers: map<Key, Identity>, l: Listing): map<Key, Identity> {
    if l.key in e.addresses && l.key in e.providers then providers[l.key := l.identity] else providers
  }

  lemma AssignedTwice(m: map<Key, Identity>, blses: seq<Key>, identity: Identity)
    ensures Assigned(Assigned(m, blses, identity), blses, identity) == Assigned(m, blses, identity)
  {
  }

  lemma AssignedSnoc(m: map<Key, Identity>, blses: seq<Key>, bls: Key, identity: Identity)
    ensures Assigned(m, blses + [bls], identity) == Assigned(m, blses, identity)[bls := identity]
  {
  }

  lemma ProgressSnoc(e: Lookups, ls: seq<Listing>, m: map<Key, Identity>, providers: map<Key, Identity>, l: Listing)
    requires Progress(e, ls, m, providers)
    ensures !Fails(e, l) ==>
              Progress(e, ls + [l], AfterDirect(e, AfterOwner(e, m, l), l), AfterProvider(e, providers, l))
    ensures Fails(e, l) ==> AfterProvider(e, providers, l) == providers
  {
    ConfirmedSnoc(e, ls, m, l);
    ProvidersSnoc(e, ls, providers, l);
    FailsSnoc(e, ls, l);
  }

  lemma ProvidersSnoc(e: Lookups, ls: seq<Listing>, providers: map<Key, Identity>, l: Listing)
    requires ProvidersConfirmed(e, ls, providers)
    ensures ProvidersConfirmed(e, ls + [l], AfterProvider(e, providers, l))
  {
    var next := ls + [l];
    assert next[|ls|] == l && forall i :: 0 <= i < |ls| ==> next[i] == ls[i];
  }

  /** The listings processed so far and what they led to. */
  ghost predicate Progress(
      e: Lookups, ls: seq<Listing>, confirmations: map<Key, Identity>, providers: map<Key, Identity>) {
    Confirmed(e, ls, confirmations) && ProvidersConfirmed(e, ls, providers) && !AnyFails(e, ls)
  }

  class KeybaseService {
    var confirmations: map<Key, Identity>
    var confirmedProviders: map<Key, Identity>
    var confirmedIdentities: map<Key, Identity>

    constructor ()
      ensures confirmations == map[] && confirmedProviders == map[] && confirmedIdentities == map[]
    {
      confirmations, confirmedProviders, confirmedIdentities := map[], map[], map[];
    }

    method AssignAll(blses: seq<Key>, identity: Identity)
      modifies this`confirmations
      ensures confirmations == Assigned(old(confirmations), blses, identity)
    {
      for i := 0 to |blses|
        invariant confirmations == Assigned(old(confirmations), blses[..i], identity)
      {
        assert blses[..i + 1] == blses[..i] + [blses[i]];
        AssignedSnoc(old(confirmations), blses[..i], blses[i], identity);
        confirmations := confirmations[blses[i] := identity];
      }
      assert blses[..|blses|] == blses;
    }

    /** One owner key of an identity; `failed` is the lookup error that is not caught. */
    method ConfirmKey(e: Lookups, l: Listing) returns (failed: bool)
      modifies this`confirmations, this`confirmedProviders
      ensures failed <==> Fails(e, l)
      ensures !failed ==> confirmations == AfterDirect(e, AfterOwner(e, old(confirmations), l), l)
      ensures confirmedProviders == AfterProvider(e, old(confirmedProviders), l)
    {
      failed := false;
      if l.key in e.addresses {
        if l.key in e.providers {
          confirmedProviders := confirmedProviders[l.key := l.identity];
        }
        if l.key in e.ownerBlses {
          AssignAll(e.ownerBlses[l.key], l.identity);
        }
      }
      if l.key in e.addresses && l.key !in e.providers {
        if l.key !in e.ownerBlses {
          return true;
        }
        AssignedTwice(old(confirmations), e.ownerBlses[l.key], l.identity);
        AssignAll(e.ownerBlses[l.key], l.identity);
      }
      if |l.key| == BLS_LENGTH && l.key in e.heartbeat && e.heartbeat[l.key] == l.identity && l.key !in confirmations {
        confirmations := confirmations[l.key := l.identity];
      }
    }

    method ConfirmIdentity(
        e: Lookups, identity: Identity, keys: seq<Key>, ghost before: seq<Listing>)
        returns (failed: bool, ghost done: nat)
      requires Progress(e, before, confirmations, confirmedProviders)
      modifies this`confirmations, this`confirmedProviders
      ensures done <= |keys|
      ensures !failed ==>
                done == |keys| && Progress(e, before + KeysOf(identity, keys), confirmations, confirmedProviders)
      ensures failed ==> done < |keys| && Fails(e, Listing(identity, keys[done]))
      ensures failed ==> ProvidersConfirmed(e, before + KeysOf(identity, keys[..done]), confirmedProviders)
    {
      failed, done := false, 0;
      assert before + KeysOf(identity, keys[..0]) == before;
      for i := 0 to |keys|
        invariant !failed && done == i
        invariant Progress(e, before + KeysOf(identity, keys[..i]), confirmations, confirmedProviders)
      {
        var l := Listing(identity, keys[i]);
        assert before + KeysOf(identity, keys[..i + 1]) == before + KeysOf(identity, keys[..i]) + [l];
        ProgressSnoc(e, before + KeysOf(identity, keys[..i]), confirmations, confirmedProviders, l);
        failed := ConfirmKey(e, l);
        if failed {
          return;
        }
        done := i + 1;
      }
      assert keys[..|keys|] == keys;
    }

    /** All identities; the confirmations are published only if no lookup error ended the run. */
    method ConfirmIdentities(
        e: Lookups, identities: seq<Identity>, owners: map<Identity, seq<Key>>) returns (failed: bool)
      requires confirmations == map[] && confirmedProviders == map[]
      modifies this
      ensures failed <==> AnyFails(e, Listings(identities, owners))
      ensures failed ==> confirmedIdentities == old(confirmedIdentities)
      ensures !failed ==> Confirmed(e, Listings(identities, owners), confirmations)
      ensures !failed ==> ProvidersConfirmed(e, Listings(identities, owners), confirmedProviders)
      ensures !failed ==> confirmedIdentities == old(confirmedIdentities) + confirmations
    {
      failed := false;
      assert Listings(identities[..0], owners) == [];
      for n := 0 to |identities|
        invariant !failed && Progress(e, Listings(identities[..n], owners), confirmations, confirmedProviders)
        invariant confirmedIdentities == old(confirmedIdentities)
      {
        var identity := identities[n];
        ghost var before := Listings(identities[..n], owners);
        assert identities[..n + 1][..n] == identities[..n];
        assert KeysOf(identity, []) == [];
        if identity in owners {
          ghost var done: nat;
          failed, done := ConfirmIdentity(e, identity, owners[identity], before);
          if failed {
            FailsLater(e, identities, owners, n, done);
            return;
          }
        } else {
          assert before + [] == before;
        }
      }
      assert identities[..|identities|] == identities;
      confirmedIdentities := confirmedIdentities + confirmations;
    }
  }

  lemma FailsSnoc(e: Lookups, ls: seq<Listing>, l: Listing)
    ensures AnyFails(e, ls + [l]) <==> AnyFails(e, ls) || Fails(e, l)
  {
    var next := ls + [l];
    assert next[|ls|] == l && forall i :: 0 <= i < |ls| ==> next[i] == ls[i];
  }

  lemma {:induction false} FailsLater(
      e: Lookups, identities: seq<Identity>, owners: map<Identity, seq<Key>>, n: nat, i: nat)
    requires n < |identities| && identities[n] in owners && i < |owners[identities[n]]| &&
             Fails(e, Listing(identities[n], owners[identities[n]][i]))
    ensures AnyFails(e, Listings(identities, owners))
  {
    var m := |identities| - 1;
    var earlier := Listings(identities[..m], owners);
    var last := KeysOf(identities[m], if identities[m] in owners then owners[identities[m]] else []);
    var all := Listings(identities, owners);
    if n == m {
      assert all[|earlier| + i] == last[i];
    } else {
      FailsLater(e, identities[..m], owners, n, i);
      var j :| 0 <= j < |earlier| && Fails(e, earlier[j]);
      assert all[j] == earlier[j];
    }
  }
}
