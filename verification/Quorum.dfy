/** Attester quorums: what the verifier accepts, what the proposer aggregates, and why the one
    always passes the other. */
module Quorum {
  import opened Wrappers
  import opened SettlementCore
  import opened Sorting

  datatype Attestation = Attestation(attester: Address, signature: Signature)

  /** Distinct bonded attesters, in ascending order, at least `threshold` of them. */
  ghost predicate QuorumHolds(c: Crypto, digest: Hash, sigs: seq<Signature>, attesters: seq<Address>, threshold: nat) {
    && threshold >= 1 && |sigs| >= threshold
    && (forall i :: 0 <= i < |sigs| ==>
          && c.recover(digest, sigs[i]).Some?
          && c.recover(digest, sigs[i]).value in attesters && c.recover(digest, sigs[i]).value != ZERO_ADDRESS)
    && (forall i, j :: 0 <= i < j < |sigs| ==> c.recover(digest, sigs[i]).value < c.recover(digest, sigs[j]).value)
  }

  method VerifyQuorum(c: Crypto, digest: Hash, sigs: seq<Signature>, attesters: seq<Address>, threshold: nat)
    returns (ok: bool)
    ensures ok <==> QuorumHolds(c, digest, sigs, attesters, threshold)
  {
    if threshold == 0 || |sigs| < threshold {
      return false;
    }
    var last := ZERO_ADDRESS;
    var i := 0;
    while i < |sigs|
      invariant i <= |sigs|
      invariant forall k :: 0 <= k < i ==>
                  && c.recover(digest, sigs[k]).Some?
                  && c.recover(digest, sigs[k]).value in attesters && c.recover(digest, sigs[k]).value != ZERO_ADDRESS
      invariant forall j, k :: 0 <= j < k < i ==> c.recover(digest, sigs[j]).value < c.recover(digest, sigs[k]).value
      invariant last == if i == 0 then ZERO_ADDRESS else c.recover(digest, sigs[i-1]).value
    {
      var signer := c.recover(digest, sigs[i]);
      if signer.None? {
        return false;
      }
      if signer.value <= last || signer.value !in attesters {
        return false;
      }
      last := signer.value;
      i := i + 1;
    }
    return true;
  }

  /** One signature per member of `signers`, ascending by signer. */
  ghost predicate SubmitReady(c: Crypto, digest: Hash, sigs: seq<Signature>, signers: set<Address>) {
    && |sigs| == |signers|
    && (forall i :: 0 <= i < |sigs| ==> c.recover(digest, sigs[i]).Some? && c.recover(digest, sigs[i]).value in signers)
    && (forall i, j :: 0 <= i < j < |sigs| ==> c.recover(digest, sigs[i]).value < c.recover(digest, sigs[j]).value)
    && (forall a :: a in signers ==> exists i :: 0 <= i < |sigs| && c.recover(digest, sigs[i]) == Some(a))
  }

  /** Exactly when a submit-ready list passes the verifier. */
  lemma SubmitReadyPassesIff(c: Crypto, digest: Hash, sigs: seq<Signature>, signers: set<Address>,
                             attesters: seq<Address>, threshold: nat)
    requires SubmitReady(c, digest, sigs, signers)
    ensures QuorumHolds(c, digest, sigs, attesters, threshold)
            <==> 1 <= threshold <= |signers| && ZERO_ADDRESS !in signers && forall a :: a in signers ==> a in attesters
  {
    if QuorumHolds(c, digest, sigs, attesters, threshold) {
      forall a | a in signers ensures a in attesters && a != ZERO_ADDRESS {
        var i :| 0 <= i < |sigs| && c.recover(digest, sigs[i]) == Some(a);
      }
    }
  }

  // ------------------------------------------------------------------ aggregation

  predicate Counts(c: Crypto, digest: Hash, a: Attestation, bonded: seq<Address>) {
    c.recover(digest, a.signature) == Some(a.attester) && a.attester in bonded
  }

  /** The distinct bonded operators with a valid attestation in the collection. */
  ghost function Endorsers(c: Crypto, digest: Hash, attestations: seq<Attestation>,
                           bonded: seq<Address>): set<Address> {
    set i | 0 <= i < |attestations| && attestations[i].attester in bonded
            && c.recover(digest, attestations[i].signature) == Some(attestations[i].attester)
      :: attestations[i].attester
  }

  const BY_SIGNER: ((Address, Signature)) -> Key := (entry: (Address, Signature)) => (entry.0, 0)

  /** `accepted` holds one valid entry per signer of `counted`. */
  ghost predicate OneEach(c: Crypto, digest: Hash, accepted: seq<(Address, Signature)>, counted: set<Address>) {
    && |accepted| == |counted|
    && (forall i :: 0 <= i < |accepted| ==>
        accepted[i].0 in counted && c.recover(digest, accepted[i].1) == Some(accepted[i].0))
    && (forall i, j :: 0 <= i < j < |accepted| ==> accepted[i].0 != accepted[j].0)
    && (forall a :: a in counted ==> exists i :: 0 <= i < |accepted| && accepted[i].0 == a)
  }

  lemma SortedEntriesReady(c: Crypto, digest: Hash, accepted: seq<(Address, Signature)>, counted: set<Address>,
                           sigs: seq<Signature>)
    requires OneEach(c, digest, accepted, counted)
    requires var sorted := SortBy(accepted, BY_SIGNER);
             |sigs| == |sorted| && forall i :: 0 <= i < |sigs| ==> sigs[i] == sorted[i].1
    ensures SubmitReady(c, digest, sigs, counted)
  {
    var sorted := SortBy(accepted, BY_SIGNER);
    assert DistinctKeys(accepted, BY_SIGNER);
    SortByStrict(accepted, BY_SIGNER);
    SortByLength(accepted, BY_SIGNER);
    forall i | 0 <= i < |sigs| ensures c.recover(digest, sigs[i]) == Some(sorted[i].0) && sorted[i].0 in counted {
      SortByMember(accepted, BY_SIGNER, sorted[i]);
      assert sorted[i] in accepted;
    }
    forall i, j | 0 <= i < j < |sigs| ensures sorted[i].0 < sorted[j].0 {
      assert KeyLess(BY_SIGNER(sorted[i]), BY_SIGNER(sorted[j]));
    }
    forall a | a in counted ensures exists i :: 0 <= i < |sigs| && c.recover(digest, sigs[i]) == Some(a) {
      var k :| 0 <= k < |accepted| && accepted[k].0 == a;
      SortByMember(accepted, BY_SIGNER, accepted[k]);
      assert accepted[k] in sorted;
      var i :| 0 <= i < |sorted| && sorted[i] == accepted[k];
      assert c.recover(digest, sigs[i]) == Some(a);
    }
  }

  /** Quorum is reached exactly when enough distinct bonded operators endorse, whatever the
      collection order, duplicates or garbage, and the result names each of them once. */
  method AggregateAttestation(c: Crypto, digest: Hash, attestations: seq<Attestation>, bonded: seq<Address>,
                              threshold: nat)
    returns (r: Option<seq<Signature>>)
    ensures r.Some? <==> |Endorsers(c, digest, attestations, bonded)| >= threshold
    ensures r.Some? ==> SubmitReady(c, digest, r.value, Endorsers(c, digest, attestations, bonded))
  {
    var counted: set<Address> := {};
    var accepted: seq<(Address, Signature)> := [];
    var i := 0;
    while i < |attestations|
      invariant i <= |attestations|
      invariant counted == Endorsers(c, digest, attestations[..i], bonded)
      invariant OneEach(c, digest, accepted, counted)
    {
      var a := attestations[i];
      EndorsersExtend(c, digest, attestations, bonded, i);
      if Counts(c, digest, a, bonded) && a.attester !in counted {
        OneMore(c, digest, accepted, counted, a);
        counted := counted + {a.attester};
        accepted := accepted + [(a.attester, a.signature)];
      } else if Counts(c, digest, a, bonded) {
        assert counted + {a.attester} == counted;
      }
      i := i + 1;
    }
    assert attestations[..i] == attestations;
    if |accepted| < threshold {
      return None;
    }
    var sorted := SortBy(accepted, BY_SIGNER);
    var sigs := seq(|sorted|, i requires 0 <= i < |sorted| => sorted[i].1);
    SortedEntriesReady(c, digest, accepted, counted, sigs);
    return Some(sigs);
  }

  lemma EndorsersExtend(c: Crypto, digest: Hash, attestations: seq<Attestation>, bonded: seq<Address>, n: nat)
    requires n < |attestations|
    ensures Endorsers(c, digest, attestations[..n+1], bonded)
            == Endorsers(c, digest, attestations[..n], bonded)
               + (if Counts(c, digest, attestations[n], bonded) then {attestations[n].attester} else {})
  {
    var more, less := attestations[..n+1], attestations[..n];
    assert more[n] == attestations[n];
    assert forall i :: 0 <= i < n ==> more[i] == less[i];
  }

  lemma OneMore(c: Crypto, digest: Hash, accepted: seq<(Address, Signature)>, counted: set<Address>, a: Attestation)
    requires OneEach(c, digest, accepted, counted)
    requires c.recover(digest, a.signature) == Some(a.attester) && a.attester !in counted
    ensures OneEach(c, digest, accepted + [(a.attester, a.signature)], counted + {a.attester})
  {
    var more := accepted + [(a.attester, a.signature)];
    forall b | b in counted + {a.attester} ensures exists i :: 0 <= i < |more| && more[i].0 == b {
      if b == a.attester {
        assert more[|accepted|].0 == b;
      } else {
        var i :| 0 <= i < |accepted| && accepted[i].0 == b;
        assert more[i].0 == b;
      }
    }
  }

  /** Whatever the proposer aggregates, the verifier accepts: always, except for a zero threshold
      or a bonded zero address, which the verifier alone refuses. */
  lemma AggregateMeetsVerifier(c: Crypto, digest: Hash, attestations: seq<Attestation>, bonded: seq<Address>,
                               threshold: nat, sigs: seq<Signature>)
    requires threshold <= |Endorsers(c, digest, attestations, bonded)|
    requires SubmitReady(c, digest, sigs, Endorsers(c, digest, attestations, bonded))
    ensures QuorumHolds(c, digest, sigs, bonded, threshold)
            <==> threshold >= 1 && ZERO_ADDRESS !in Endorsers(c, digest, attestations, bonded)
  {
    SubmitReadyPassesIff(c, digest, sigs, Endorsers(c, digest, attestations, bonded), bonded, threshold);
  }

  /** At a zero threshold the aggregate of nothing is ready to submit, and the verifier refuses it. */
  lemma ZeroThresholdRefused(c: Crypto, digest: Hash, bonded: seq<Address>)
    ensures Endorsers(c, digest, [], bonded) == {} && SubmitReady(c, digest, [], {})
    ensures !QuorumHolds(c, digest, [], bonded, 0)
  {
  }

  /** A bonded zero address that recovers: its one attestation meets a threshold of one, and the verifier
      refuses it. */
  lemma ZeroEndorserRefused(c: Crypto, digest: Hash, sig: Signature)
    requires c.recover(digest, sig) == Some(ZERO_ADDRESS)
    ensures Endorsers(c, digest, [Attestation(ZERO_ADDRESS, sig)], [ZERO_ADDRESS]) == {ZERO_ADDRESS}
    ensures SubmitReady(c, digest, [sig], {ZERO_ADDRESS})
    ensures !QuorumHolds(c, digest, [sig], [ZERO_ADDRESS], 1)
  {
    var attestations := [Attestation(ZERO_ADDRESS, sig)];
    assert Counts(c, digest, attestations[0], [ZERO_ADDRESS]);
    assert c.recover(digest, [sig][0]) == Some(ZERO_ADDRESS);
  }

  // ------------------------------------------------------------------ sorting a loose collection

  function SignerKey(c: Crypto, digest: Hash): Signature -> Key {
    (s: Signature) => (match c.recover(digest, s) case Some(a) => a case None => 0, 0)
  }

  function Recovers(c: Crypto, digest: Hash): Signature -> bool {
    (s: Signature) => c.recover(digest, s).Some?
  }

  function SortQuorumSigs(c: Crypto, digest: Hash, sigs: seq<Signature>): seq<Signature> {
    Dedup(SortBy(Filter(sigs, Recovers(c, digest)), SignerKey(c, digest)), SignerKey(c, digest))
  }

  /** Everyone who signed `digest` in the collection. */
  ghost function Signers(c: Crypto, digest: Hash, sigs: seq<Signature>): set<Address> {
    set i | 0 <= i < |sigs| && c.recover(digest, sigs[i]).Some? :: c.recover(digest, sigs[i]).value
  }

  lemma SortedSigsAreOurs(c: Crypto, digest: Hash, sigs: seq<Signature>, i: nat)
    requires i < |SortQuorumSigs(c, digest, sigs)|
    ensures var s := SortQuorumSigs(c, digest, sigs)[i];
            s in sigs && c.recover(digest, s).Some? && c.recover(digest, s).value in Signers(c, digest, sigs)
  {
    var key, kept := SignerKey(c, digest), Filter(sigs, Recovers(c, digest));
    var s := SortQuorumSigs(c, digest, sigs)[i];
    DedupMember(SortBy(kept, key), key, s);
    SortByMember(kept, key, s);
    assert s in kept;
    var k :| 0 <= k < |sigs| && sigs[k] == s;
    assert c.recover(digest, sigs[k]).Some?;
  }

  lemma SignerIsKept(c: Crypto, digest: Hash, sigs: seq<Signature>, a: Address) returns (j: nat)
    requires a in Signers(c, digest, sigs)
    ensures j < |SortQuorumSigs(c, digest, sigs)| && c.recover(digest, SortQuorumSigs(c, digest, sigs)[j]) == Some(a)
  {
    var key, kept := SignerKey(c, digest), Filter(sigs, Recovers(c, digest));
    var k :| 0 <= k < |sigs| && c.recover(digest, sigs[k]) == Some(a);
    assert sigs[k] in kept;
    SortByMember(kept, key, sigs[k]);
    var sorted := SortBy(kept, key);
    var i :| 0 <= i < |sorted| && sorted[i] == sigs[k];
    j := DedupKeepsKeys(sorted, key, i);
    SortedSigsAreOurs(c, digest, sigs, j);
  }

  lemma {:induction false} AscendingCovers(xs: seq<Address>, s: set<Address>)
    requires forall i, j :: 0 <= i < j < |xs| ==> xs[i] < xs[j]
    requires forall a :: a in s <==> a in xs
    ensures |xs| == |s|
  {
    if xs == [] {
      assert s == {};
    } else {
      var n := |xs| - 1;
      forall a ensures a in s - {xs[n]} <==> a in xs[..n] {
        if a in xs[..n] {
          var i :| 0 <= i < n && xs[..n][i] == a;
          assert xs[i] < xs[n];
        }
      }
      AscendingCovers(xs[..n], s - {xs[n]});
      assert xs[n] in s;
    }
  }

  /** Sorting and deduplicating any collection gives exactly its signers, submit-ready. */
  lemma SortQuorumSigsReady(c: Crypto, digest: Hash, sigs: seq<Signature>)
    ensures SubmitReady(c, digest, SortQuorumSigs(c, digest, sigs), Signers(c, digest, sigs))
  {
    var out, signers := SortQuorumSigs(c, digest, sigs), Signers(c, digest, sigs);
    var key, kept := SignerKey(c, digest), Filter(sigs, Recovers(c, digest));
    SortAscends(kept, key);
    DedupStrict(SortBy(kept, key), key);
    forall i | 0 <= i < |out| ensures c.recover(digest, out[i]).Some? && c.recover(digest, out[i]).value in signers {
      SortedSigsAreOurs(c, digest, sigs, i);
    }
    forall i, j | 0 <= i < j < |out| ensures c.recover(digest, out[i]).value < c.recover(digest, out[j]).value {
      assert KeyLess(key(out[i]), key(out[j]));
    }
    forall a | a in signers ensures exists i :: 0 <= i < |out| && c.recover(digest, out[i]) == Some(a) {
      var j := SignerIsKept(c, digest, sigs, a);
    }
    SignersCounted(c, digest, out, signers);
  }

  lemma SignersCounted(c: Crypto, digest: Hash, sigs: seq<Signature>, signers: set<Address>)
    requires forall i :: 0 <= i < |sigs| ==>
        c.recover(digest, sigs[i]).Some? && c.recover(digest, sigs[i]).value in signers
    requires forall i, j :: 0 <= i < j < |sigs| ==> c.recover(digest, sigs[i]).value < c.recover(digest, sigs[j]).value
    requires forall a :: a in signers ==> exists i :: 0 <= i < |sigs| && c.recover(digest, sigs[i]) == Some(a)
    ensures |sigs| == |signers|
  {
    var who := seq(|sigs|, i requires 0 <= i < |sigs| => c.recover(digest, sigs[i]).value);
    forall a ensures a in signers <==> a in who {
      if a in signers {
        var j :| 0 <= j < |sigs| && c.recover(digest, sigs[j]) == Some(a);
        assert who[j] == a;
      }
    }
    AscendingCovers(who, signers);
  }

  /** A sorted collection passes the verifier exactly when it holds enough distinct signers, all
      of them attesters and none the zero address. */
  lemma SortedSigsPassIff(c: Crypto, digest: Hash, sigs: seq<Signature>, attesters: seq<Address>, threshold: nat)
    ensures QuorumHolds(c, digest, SortQuorumSigs(c, digest, sigs), attesters, threshold)
            <==> && 1 <= threshold <= |Signers(c, digest, sigs)| && ZERO_ADDRESS !in Signers(c, digest, sigs)
                 && forall a :: a in Signers(c, digest, sigs) ==> a in attesters
  {
    SortQuorumSigsReady(c, digest, sigs);
    SubmitReadyPassesIff(c, digest, SortQuorumSigs(c, digest, sigs), Signers(c, digest, sigs), attesters, threshold);
  }
}
