/** The check of a two-chain timeout certificate, whose signers vouch for different rounds
    (consensus/consensus-types/src/timeout_2chain.rs). */
module TimeoutCertificates {
  import opened Wrappers
  import opened Validators
  import opened Types

  ghost predicate Checked(v: ValidatorVerifier, tc: TwoChainTimeoutCertificate, a: Address, r: Round) {
    a in tc.signatures && tc.SignedFor(v, a) && tc.signatures[a].0 <= r
  }

  ghost predicate Reached(tc: TwoChainTimeoutCertificate, r: Round) {
    r == 0 || exists a :: a in tc.signatures && tc.signatures[a].0 == r
  }

  /** The loop over the signatures: `None` if one is invalid, otherwise the highest signed round. */
  method HighestSignedRound(v: ValidatorVerifier, tc: TwoChainTimeoutCertificate, authors: seq<Address>)
    returns (r: Option<Round>)
    requires forall a :: a in authors <==> a in tc.signatures
    ensures r.Some? <==> forall a :: a in tc.signatures ==> tc.SignedFor(v, a)
    ensures r.Some? ==> tc.IsHighestSigned(r.value)
  {
    var signedRound := 0;
    for i := 0 to |authors|
      invariant forall j :: 0 <= j < i ==> Checked(v, tc, authors[j], signedRound)
      invariant Reached(tc, signedRound)
    {
      var a := authors[i];
      assert a in authors;
      var (round, signature) := tc.signatures[a];
      if Validators.Verify(v, a, TimeoutSigningRepr(tc.timeout.epoch, tc.timeout.round, round), signature).Err? {
        assert !tc.SignedFor(v, a);
        return None;
      }
      signedRound := if signedRound < round then round else signedRound;
    }
    forall a | a in tc.signatures
      ensures Checked(v, tc, a, signedRound)
    {
      assert a in authors;
    }
    return Some(signedRound);
  }

  /** Accepts exactly the certificates that the safety arguments rely on. */
  method VerifyTwoChain(v: ValidatorVerifier, tc: TwoChainTimeoutCertificate) returns (ok: bool)
    ensures ok == tc.Verify(v)
  {
    if tc.timeout.HqcRound() >= tc.timeout.round || !tc.timeout.quorumCert.Verify(v) {
      return false;
    }
    ElementsOfAscending(tc.signatures.Keys);
    var power := CheckVotingPower(v, Ascending(tc.signatures.Keys));
    if power.Err? {
      return false;
    }
    var signedRound := HighestSignedRound(v, tc, Ascending(tc.signatures.Keys));
    if signedRound.None? {
      return false;
    }
    HighestUnique(tc, signedRound.value, tc.timeout.HqcRound());
    return tc.timeout.HqcRound() == signedRound.value;
  }

  lemma {:induction false} HighestUnique(tc: TwoChainTimeoutCertificate, r: Round, q: Round)
    requires tc.IsHighestSigned(r)
    ensures tc.IsHighestSigned(q) <==> q == r
  {
  }
}
