/** Weighted validator sets: the quorum threshold, the check of a signer set, and
    the verification of aggregated signatures (types/src/validator_verifier.rs). */
module Validators {
  import opened Wrappers

  type Address = nat
  type PublicKey = nat

  /** An ideal signature names the key that made it and the message it covers. */
  datatype Signature<M> = Signature(publicKey: PublicKey, message: M)

  datatype ValidatorInfo = ValidatorInfo(publicKey: PublicKey, votingPower: nat)

  datatype VerifyError =
    | UnknownAuthor
    | TooLittleVotingPower(votingPower: nat, quorumVotingPower: nat)
    | TooManySignatures(numOfSignatures: nat, numOfAuthors: nat)
    | InvalidSignature

  datatype ValidatorVerifier = ValidatorVerifier(
    validators: map<Address, ValidatorInfo>,
    quorumVotingPower: nat,
    totalVotingPower: nat)

  // ----- Ordered iteration over a set of addresses -----

  predicate IsMin(s: set<nat>, m: nat) {
    m in s && forall x :: x in s ==> m <= x
  }

  lemma {:induction false} MinExists(s: set<nat>)
    requires s != {}
    ensures exists m :: IsMin(s, m)
  {
    var a :| a in s;
    if s == {a} {
      assert IsMin(s, a);
    } else {
      MinExists(s - {a});
      var m :| IsMin(s - {a}, m);
      assert forall x :: x in s ==> x == a || x in s - {a};
      assert IsMin(s, if m < a then m else a);
    }
  }

  function Min(s: set<nat>): (m: nat)
    requires s != {}
    ensures IsMin(s, m)
  {
    MinExists(s);
    var m :| IsMin(s, m);
    m
  }

  /** The elements of `s` in ascending order, as a BTreeMap iterates its keys. */
  function Ascending(s: set<nat>): (r: seq<nat>)
    ensures |r| == |s|
    ensures forall x :: x in r <==> x in s
    ensures forall i, j :: 0 <= i < j < |r| ==> r[i] < r[j]
  {
    if s == {} then [] else [Min(s)] + Ascending(s - {Min(s)})
  }

  function Elements(authors: seq<Address>): set<Address> {
    set a | a in authors
  }

  ghost predicate Distinct(authors: seq<Address>) {
    forall i, j :: 0 <= i < j < |authors| ==> authors[i] != authors[j]
  }

  lemma {:induction false} ElementsOfAscending(s: set<nat>)
    ensures Elements(Ascending(s)) == s
    ensures Distinct(Ascending(s))
  {
    assert forall x :: x in Ascending(s) <==> x in s;
    assert forall x :: x in Elements(Ascending(s)) <==> x in s;
  }

  // ----- Voting power of a set of addresses -----

  function PowerAt(validators: map<Address, ValidatorInfo>, a: Address): nat {
    if a in validators then validators[a].votingPower else 0
  }

  function Power(validators: map<Address, ValidatorInfo>, s: set<Address>): nat {
    if s == {} then 0 else PowerAt(validators, Min(s)) + Power(validators, s - {Min(s)})
  }

  lemma {:induction false} PowerRemove(validators: map<Address, ValidatorInfo>, s: set<Address>, a: Address)
    requires a in s
    ensures Power(validators, s) == PowerAt(validators, a) + Power(validators, s - {a})
  {
    var m := Min(s);
    if a != m {
      PowerRemove(validators, s - {m}, a);
      assert s - {m} - {a} == s - {a} - {m};
      assert m in s - {a} && Min(s - {a}) in s;
    }
  }

  lemma {:induction false} PowerUnion(validators: map<Address, ValidatorInfo>, s: set<Address>, t: set<Address>)
    ensures Power(validators, s + t) + Power(validators, s * t) == Power(validators, s) + Power(validators, t)
    decreases s
  {
    if s == {} {
      assert s + t == t && s * t == {};
    } else {
      var a := Min(s);
      var s' := s - {a};
      PowerUnion(validators, s', t);
      PowerRemove(validators, s + t, a);
      if a in t {
        assert s + t == s' + t;
        PowerRemove(validators, s * t, a);
        assert s * t - {a} == s' * t;
      } else {
        assert s + t - {a} == s' + t;
        assert s * t == s' * t;
      }
    }
  }

  lemma {:induction false} PowerMonotone(validators: map<Address, ValidatorInfo>, s: set<Address>, t: set<Address>)
    requires s <= t
    ensures Power(validators, s) <= Power(validators, t)
  {
    PowerUnion(validators, s, t - s);
    assert s + (t - s) == t && s * (t - s) == {};
  }

  /** Quorums overlap: what two sets hold beyond the whole they are drawn from, they share. */
  lemma {:induction false} PowerOverlap(validators: map<Address, ValidatorInfo>, s: set<Address>, t: set<Address>,
                                        all: set<Address>)
    requires s <= all && t <= all
    ensures Power(validators, s * t) + Power(validators, all) >= Power(validators, s) + Power(validators, t)
  {
    PowerUnion(validators, s, t);
    PowerMonotone(validators, s + t, all);
  }

  // ----- Construction -----

  function Wrap64(n: nat): nat {
    n % (U64_MAX + 1)
  }

  /** `None` is the panic of `sum_voting_power` on overflow. The doubling of the total is an
      unchecked u64 product, so it wraps. */
  function New(validators: map<Address, ValidatorInfo>): Option<ValidatorVerifier> {
    var total := Power(validators, validators.Keys);
    if total > U64_MAX then None
    else
      var quorum := if validators == map[] then 0 else Wrap64(total * 2) / 3 + 1;
      Some(ValidatorVerifier(validators, quorum, total))
  }

  /** A verifier can be made exactly of a set whose power fits in 64 bits, and only without validators is
      its quorum zero. */
  lemma {:induction false} NewIff(validators: map<Address, ValidatorInfo>)
    ensures New(validators).Some? <==> Power(validators, validators.Keys) <= U64_MAX
    ensures New(validators).Some? ==>
              && New(validators).value.validators == validators
              && New(validators).value.totalVotingPower == Power(validators, validators.Keys)
              && (New(validators).value.quorumVotingPower == 0 <==> |validators| == 0)
  {
  }

  function MaxFaulty(total: nat): nat
    requires total >= 1
  {
    (total - 1) / 3
  }

  /** The verifiers the arguments below are about: built by `New`, with some power, and
      a total whose double does not wrap. */
  ghost predicate Sound(v: ValidatorVerifier) {
    && New(v.validators) == Some(v)
    && 1 <= v.totalVotingPower
    && 2 * v.totalVotingPower <= U64_MAX
  }

  /** The computed threshold is "all but f" exactly as long as doubling the total does not wrap. */
  lemma {:induction false} ThresholdExact(validators: map<Address, ValidatorInfo>)
    requires New(validators).Some? && New(validators).value.totalVotingPower >= 1
    ensures var v := New(validators).value;
            v.quorumVotingPower == v.totalVotingPower - MaxFaulty(v.totalVotingPower)
            <==> 2 * v.totalVotingPower <= U64_MAX
  {
    var v := New(validators).value;
    var t := v.totalVotingPower;
    assert validators != map[];
    if 2 * t <= U64_MAX {
      assert Wrap64(t * 2) == t * 2;
      assert t * 2 / 3 + 1 == t - (t - 1) / 3;
    } else {
      assert t * 2 == (U64_MAX + 1) + (t * 2 - (U64_MAX + 1));
      assert Wrap64(t * 2) == t * 2 - (U64_MAX + 1);
    }
  }

  /** Doubling a total of 2^63 wraps to zero and leaves a threshold of one unit of power. */
  lemma {:induction false} ThresholdWraps()
    ensures var validators := map[1 := ValidatorInfo(1, 0x8000_0000_0000_0000)];
            New(validators).Some? && New(validators).value.quorumVotingPower == 1
  {
    var validators := map[1 := ValidatorInfo(1, 0x8000_0000_0000_0000)];
    assert validators.Keys == {1};
    PowerRemove(validators, validators.Keys, 1);
    assert validators.Keys - {1} == {};
    assert Power(validators, validators.Keys) == 0x8000_0000_0000_0000;
  }

  lemma {:induction false} SoundThreshold(v: ValidatorVerifier)
    requires Sound(v)
    ensures v.totalVotingPower == Power(v.validators, v.validators.Keys)
    ensures v.quorumVotingPower == v.totalVotingPower - MaxFaulty(v.totalVotingPower)
    ensures 2 * v.quorumVotingPower > v.totalVotingPower + MaxFaulty(v.totalVotingPower)
  {
    ThresholdExact(v.validators);
  }

  // ----- Checking a signer set -----

  /** What `check_voting_power` answers for the authors in `s`. */
  function CheckPower(v: ValidatorVerifier, s: set<Address>): Result<(), VerifyError> {
    if !(s <= v.validators.Keys) then Err(UnknownAuthor)
    else if Power(v.validators, s) < v.quorumVotingPower then
      Err(TooLittleVotingPower(Power(v.validators, s), v.quorumVotingPower))
    else Ok(())
  }

  /** The power of a list of authors, in which an author counts as often as it is listed. */
  function SumPower(v: ValidatorVerifier, authors: seq<Address>): nat {
    if authors == [] then 0
    else SumPower(v, authors[..|authors| - 1]) + PowerAt(v.validators, authors[|authors| - 1])
  }

  /** For distinct authors that is the power of the set, which never exceeds the total. */
  lemma {:induction false} SumOfDistinct(v: ValidatorVerifier, authors: seq<Address>)
    requires Distinct(authors)
    ensures SumPower(v, authors) == Power(v.validators, Elements(authors))
    ensures Elements(authors) <= v.validators.Keys ==> SumPower(v, authors) <= Power(v.validators, v.validators.Keys)
  {
    if authors != [] {
      var front, a := authors[..|authors| - 1], authors[|authors| - 1];
      SumOfDistinct(v, front);
      assert a in Elements(authors) && Elements(authors) - {a} == Elements(front);
      PowerRemove(v.validators, Elements(authors), a);
    }
    if Elements(authors) <= v.validators.Keys {
      PowerMonotone(v.validators, Elements(authors), v.validators.Keys);
    }
  }

  /** The accumulation in iteration order, stopping at the first unknown author. For distinct authors
      it decides the order-free question and never exceeds the cached total, so that the u64 sum
      cannot wrap. */
  method CheckVotingPower(v: ValidatorVerifier, authors: seq<Address>) returns (r: Result<(), VerifyError>)
    ensures r == if !(Elements(authors) <= v.validators.Keys) then Err(UnknownAuthor)
                 else if SumPower(v, authors) < v.quorumVotingPower then
                   Err(TooLittleVotingPower(SumPower(v, authors), v.quorumVotingPower))
                 else Ok(())
    ensures Distinct(authors) ==> r == CheckPower(v, Elements(authors))
    ensures Distinct(authors) && r.Err? && r.error.TooLittleVotingPower? ==>
              r.error.votingPower <= Power(v.validators, v.validators.Keys)
  {
    if Distinct(authors) {
      SumOfDistinct(v, authors);
    }
    var aggregated := 0;
    for i := 0 to |authors|
      invariant Elements(authors[..i]) <= v.validators.Keys
      invariant aggregated == SumPower(v, authors[..i])
    {
      var a := authors[i];
      if a !in v.validators {
        assert a in Elements(authors);
        return Err(UnknownAuthor);
      }
      aggregated := aggregated + v.validators[a].votingPower;
      assert authors[..i + 1] == authors[..i] + [a];
    }
    assert authors[..|authors|] == authors;
    if aggregated < v.quorumVotingPower {
      return Err(TooLittleVotingPower(aggregated, v.quorumVotingPower));
    }
    return Ok(());
  }

  /** Two signer sets that pass the check share more power than the faulty may hold. */
  lemma {:induction false} QuorumsIntersect(v: ValidatorVerifier, s: set<Address>, t: set<Address>)
    requires Sound(v)
    requires CheckPower(v, s).Ok? && CheckPower(v, t).Ok?
    ensures Power(v.validators, s * t) >= MaxFaulty(v.totalVotingPower) + 1
  {
    SoundThreshold(v);
    PowerOverlap(v.validators, s, t, v.validators.Keys);
  }

  /** As long as at most f of the power is faulty, the honest validators reach quorum alone. */
  lemma {:induction false} HonestReachQuorum(v: ValidatorVerifier, faulty: set<Address>)
    requires Sound(v)
    requires faulty <= v.validators.Keys
    ensures CheckPower(v, v.validators.Keys - faulty).Ok?
       <==> Power(v.validators, faulty) <= MaxFaulty(v.totalVotingPower)
  {
    SoundThreshold(v);
    var honest := v.validators.Keys - faulty;
    PowerUnion(v.validators, honest, faulty);
    assert honest + faulty == v.validators.Keys && honest * faulty == {};
  }

  /** The fault assumption for one validator set: everybody outside `honest` together holds
      at most f of the power. */
  ghost predicate FaultBound(v: ValidatorVerifier, honest: set<Address>) {
    && Sound(v)
    && Power(v.validators, set a | a in v.validators && a !in honest) <= MaxFaulty(v.totalVotingPower)
  }

  /** More power than the faulty hold means an honest member. */
  lemma {:induction false} HonestMember(v: ValidatorVerifier, honest: set<Address>, s: set<Address>)
    returns (a: Address)
    requires FaultBound(v, honest)
    requires s <= v.validators.Keys
    requires Power(v.validators, s) > MaxFaulty(v.totalVotingPower)
    ensures a in s && a in honest
  {
    if forall x :: x in s ==> x !in honest {
      PowerMonotone(v.validators, s, set x | x in v.validators && x !in honest);
      assert false;
    }
    a :| a in s && a in honest;
  }

  /** Two quorums have an honest validator in common. */
  lemma {:induction false} HonestInCommon(v: ValidatorVerifier, honest: set<Address>, s: set<Address>, t: set<Address>)
    returns (a: Address)
    requires FaultBound(v, honest)
    requires CheckPower(v, s).Ok? && CheckPower(v, t).Ok?
    ensures a in s && a in t && a in honest
  {
    QuorumsIntersect(v, s, t);
    a := HonestMember(v, honest, s * t);
  }

  // ----- Aggregated signatures -----

  predicate ValidSignature<M(==)>(v: ValidatorVerifier, a: Address, message: M, signature: Signature<M>) {
    a in v.validators && signature == Signature(v.validators[a].publicKey, message)
  }

  function Verify<M(==)>(v: ValidatorVerifier, a: Address, message: M, signature: Signature<M>): Result<(), VerifyError>
  {
    if a !in v.validators then Err(UnknownAuthor)
    else if signature != Signature(v.validators[a].publicKey, message) then Err(InvalidSignature)
    else Ok(())
  }

  predicate AllValid<M(==)>(v: ValidatorVerifier, message: M, signatures: map<Address, Signature<M>>) {
    forall a :: a in signatures ==> ValidSignature(v, a, message, signatures[a])
  }

  /** What an aggregated signature must satisfy, with the error reported when it does not. */
  function VerifyAggregated<M(==)>(v: ValidatorVerifier, message: M, signatures: map<Address, Signature<M>>)
    : Result<(), VerifyError>
  {
    if |signatures| > |v.validators| then Err(TooManySignatures(|signatures|, |v.validators|))
    else if CheckPower(v, signatures.Keys).Err? then CheckPower(v, signatures.Keys)
    else if !AllValid(v, message, signatures) then Err(InvalidSignature)
    else Ok(())
  }

  /** The checks both verification methods start with. */
  method CheckSigners<M>(v: ValidatorVerifier, signatures: map<Address, Signature<M>>)
    returns (r: Result<(), VerifyError>)
    ensures r == if |signatures| > |v.validators| then Err(TooManySignatures(|signatures|, |v.validators|))
                 else CheckPower(v, signatures.Keys)
  {
    if |signatures| > |v.validators| {
      return Err(TooManySignatures(|signatures|, |v.validators|));
    }
    ElementsOfAscending(signatures.Keys);
    r := CheckVotingPower(v, Ascending(signatures.Keys));
  }

  /** The loop of the one-by-one check over the signers in order. */
  method VerifyEach<M(==)>(v: ValidatorVerifier, message: M, signatures: map<Address, Signature<M>>,
                           authors: seq<Address>)
    returns (r: Result<(), VerifyError>)
    requires forall a :: a in authors <==> a in signatures
    requires signatures.Keys <= v.validators.Keys
    ensures r == if AllValid(v, message, signatures) then Ok(()) else Err(InvalidSignature)
  {
    for i := 0 to |authors|
      invariant forall j :: 0 <= j < i ==> ValidSignature(v, authors[j], message, signatures[authors[j]])
    {
      assert authors[i] in signatures;
      r := Verify(v, authors[i], message, signatures[authors[i]]);
      if r.Err? {
        return;
      }
    }
    return Ok(());
  }

  method VerifyAggregatedStructSignature<M(==)>(v: ValidatorVerifier, message: M,
                                                signatures: map<Address, Signature<M>>)
    returns (r: Result<(), VerifyError>)
    ensures r == VerifyAggregated(v, message, signatures)
  {
    r := CheckSigners(v, signatures);
    if r.Ok? {
      r := VerifyEach(v, message, signatures, Ascending(signatures.Keys));
    }
  }

  /** The pairs handed to the batch check. Every author is known when it is called, so the
      flat_map of the source drops none. */
  function Batch<M>(v: ValidatorVerifier, signatures: map<Address, Signature<M>>, authors: seq<Address>)
    : (batch: seq<(PublicKey, Signature<M>)>)
    requires forall a :: a in authors ==> a in signatures && a in v.validators
    ensures |batch| == |authors|
    ensures forall j :: 0 <= j < |authors| ==> batch[j] == (v.validators[authors[j]].publicKey, signatures[authors[j]])
  {
    seq(|authors|, j requires 0 <= j < |authors| => (v.validators[authors[j]].publicKey, signatures[authors[j]]))
  }

  lemma {:induction false} BatchAllValid<M>(v: ValidatorVerifier, message: M, signatures: map<Address, Signature<M>>,
                                            authors: seq<Address>)
    requires forall a :: a in authors <==> a in signatures
    requires signatures.Keys <= v.validators.Keys
    requires forall p :: p in Batch(v, signatures, authors) ==> p.1 == Signature(p.0, message)
    ensures AllValid(v, message, signatures)
  {
    forall a | a in signatures
      ensures ValidSignature(v, a, message, signatures[a])
    {
      assert a in authors;
      var j :| 0 <= j < |authors| && authors[j] == a;
      assert Batch(v, signatures, authors)[j] in Batch(v, signatures, authors);
    }
  }

  /** Batch verification with its one-by-one fallback answers exactly as the one-by-one check,
      error included, as soon as a passing batch (`batchPasses`) has no invalid signature in it. */
  method BatchVerifyAggregatedSignatures<M(==,!new)>(v: ValidatorVerifier, message: M,
                                                     signatures: map<Address, Signature<M>>,
                                                     batchPasses: seq<(PublicKey, Signature<M>)> -> bool)
    returns (r: Result<(), VerifyError>)
    requires forall batch: seq<(PublicKey, Signature<M>)> ::
               batchPasses(batch) ==> forall p :: p in batch ==> p.1 == Signature(p.0, message)
    ensures r == VerifyAggregated(v, message, signatures)
  {
    r := CheckSigners(v, signatures);
    if r.Ok? {
      var authors := Ascending(signatures.Keys);
      if batchPasses(Batch(v, signatures, authors)) {
        BatchAllValid(v, message, signatures, authors);
      } else {
        r := VerifyAggregatedStructSignature(v, message, signatures);
      }
    }
  }

  // ----- The assumptions can be met -----

  const SOLE_VALIDATOR := ValidatorVerifier(map[1 := ValidatorInfo(1, 1)], 1, 1)

  lemma {:induction false} SoleValidatorQuorum()
    ensures CheckPower(SOLE_VALIDATOR, {1}).Ok? && FaultBound(SOLE_VALIDATOR, {1})
  {
    var validators := SOLE_VALIDATOR.validators;
    PowerRemove(validators, {1}, 1);
    assert {1} - {1} == {} && validators.Keys == {1};
    assert (set a | a in validators && a !in {1}) == {};
  }
}
