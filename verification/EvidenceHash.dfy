/**
 * The checksum of a step as it is computed: SHA-256 over the canonical text of an object. It collides only where
 * SHA-256 itself does.
 */
module EvidenceHash {
  import opened Options
  import opened Sorting
  import CJ = CanonicalJson
  import EC = EvidenceChain
  import IK = IdempotencyKey

  const FIELDS := 13

  /** The hashed fields in declaration order; an absent field is left out of the object. */
  function Fields(iso: int -> string, x: EC.HashInput): (f: seq<Option<CJ.Json>>)
    ensures |f| == FIELDS
  {
    [Some(CJ.Str(x.evidenceId)), Some(CJ.Str(x.tenantId)), Some(CJ.Str(x.projectId)), Some(CJ.Str(x.runId)),
     Some(CJ.Str(x.stepId)), Some(CJ.Num(IK.Digits(x.attempt))), Some(CJ.Str(x.status)), Text(x.policyDecisionId),
     Some(CJ.Str(x.idempotencyKey)), Some(CJ.Str(iso(x.createdAt))), Text(x.payloadRef), Text(x.prevChecksum),
     Some(CJ.Str(x.traceId))]
  }

  function Text(field: Option<string>): Option<CJ.Json> {
    if field.None? then None else Some(CJ.Str(field.value))
  }

  function Members(key: nat -> string, f: seq<Option<CJ.Json>>): seq<CJ.Member> {
    if f == [] then []
    else
      var k := |f| - 1;
      Members(key, f[..k]) + if f[k].None? then [] else [CJ.Member(key(k), f[k].value)]
  }

  /** `key` gives the field names, `iso` the text of an instant, `le` the order in which names are sorted. */
  function CanonicalText(
    le: (string, string) -> bool, key: nat -> string, iso: int -> string, x: EC.HashInput): string
  {
    CJ.Canonicalize(le, CJ.Obj(Members(key, Fields(iso, x))))
  }

  function ComputeRunStepChecksum(le: (string, string) -> bool, sha: string -> string, key: nat -> string,
                                  iso: int -> string, x: EC.HashInput): string {
    sha(CanonicalText(le, key, iso, x))
  }

  predicate DistinctNames(key: nat -> string) {
    forall i: nat, j: nat | i < j < FIELDS :: key(i) != key(j)
  }

  predicate IsScalar(v: CJ.Json) {
    v.Str? || (v.Num? && CJ.WellFormed(v))
  }

  predicate Scalars(f: seq<Option<CJ.Json>>) {
    |f| <= FIELDS && forall i | 0 <= i < |f| && f[i].Some? :: IsScalar(f[i].value)
  }

  lemma {:induction false} MemberIff(key: nat -> string, f: seq<Option<CJ.Json>>, m: CJ.Member)
    ensures m in Members(key, f) <==> exists i: nat :: i < |f| && f[i] == Some(m.value) && m.key == key(i)
    decreases |f|
  {
    if f != [] {
      var k := |f| - 1;
      MemberIff(key, f[..k], m);
      if m in Members(key, f[..k]) {
        var i: nat :| i < k && f[..k][i] == Some(m.value) && m.key == key(i);
        assert f[i] == Some(m.value);
      }
      if i: nat :| i < |f| && f[i] == Some(m.value) && m.key == key(i) {
        assert i < k ==> f[..k][i] == f[i];
      }
    }
  }

  lemma {:induction false} MembersAreWellFormed(key: nat -> string, f: seq<Option<CJ.Json>>)
    requires DistinctNames(key) && Scalars(f)
    ensures CJ.WellFormed(CJ.Obj(Members(key, f)))
    decreases |f|
  {
    if f != [] {
      var k := |f| - 1;
      var init := Members(key, f[..k]);
      MembersAreWellFormed(key, f[..k]);
      forall i | 0 <= i < |init| ensures init[i].key != key(k) {
        MemberIff(key, f[..k], init[i]);
        assert init[i] in init;
      }
    }
  }

  /** A field of one object is the same field of an equivalent one. */
  lemma FieldCarriesOver(key: nat -> string, f: seq<Option<CJ.Json>>, g: seq<Option<CJ.Json>>, i: nat)
    requires DistinctNames(key) && Scalars(f) && Scalars(g) && |f| == |g| && i < |f| && f[i].Some?
    requires CJ.Equivalent(CJ.Obj(Members(key, f)), CJ.Obj(Members(key, g)))
    ensures g[i] == f[i]
  {
    hide Members, CJ.WellFormed;
    var ms, ns := Members(key, f), Members(key, g);
    var m := CJ.Member(key(i), f[i].value);
    MemberIff(key, f, m);
    var p :| 0 <= p < |ms| && ms[p] == m;
    var q :| 0 <= q < |ns| && ms[p].key == ns[q].key && CJ.Equivalent(ms[p].value, ns[q].value);
    assert ns[q] in ns;
    MemberIff(key, g, ns[q]);
    var j: nat :| j < |g| && g[j] == Some(ns[q].value) && ns[q].key == key(j);
  }

  lemma SameFields(key: nat -> string, f: seq<Option<CJ.Json>>, g: seq<Option<CJ.Json>>)
    requires DistinctNames(key) && Scalars(f) && Scalars(g) && |f| == |g|
    requires CJ.Equivalent(CJ.Obj(Members(key, f)), CJ.Obj(Members(key, g)))
    requires CJ.Equivalent(CJ.Obj(Members(key, g)), CJ.Obj(Members(key, f)))
    ensures f == g
  {
    hide Members, CJ.Equivalent, Scalars;
    forall i | 0 <= i < |f| ensures f[i] == g[i] {
      if f[i].Some? { FieldCarriesOver(key, f, g, i); } else if g[i].Some? { FieldCarriesOver(key, g, f, i); }
    }
  }

  lemma {:induction false} DigitsAreNumber(n: nat)
    ensures CJ.WellFormed(CJ.Num(IK.Digits(n)))
  {
    if n >= 10 { DigitsAreNumber(n / 10); }
  }

  lemma FieldsAreScalars(iso: int -> string, x: EC.HashInput)
    ensures Scalars(Fields(iso, x))
  {
    hide IK.Digits;
    DigitsAreNumber(x.attempt);
  }

  lemma FieldsDetermineInput(iso: int -> string, x: EC.HashInput, y: EC.HashInput)
    requires (forall a, b :: iso(a) == iso(b) ==> a == b) && Fields(iso, x) == Fields(iso, y)
    ensures x == y
  {
    hide IK.Digits;
    var f, g := Fields(iso, x), Fields(iso, y);
    IK.DigitsRoundTrip(x.attempt);
    IK.DigitsRoundTrip(y.attempt);
    assert forall i | 0 <= i < FIELDS :: f[i] == g[i];
    assert f[0] == g[0] && f[1] == g[1] && f[2] == g[2] && f[3] == g[3] && f[4] == g[4] && f[5] == g[5] && f[6] == g[6];
    assert f[7] == g[7] && f[8] == g[8] && f[9] == g[9] && f[10] == g[10] && f[11] == g[11] && f[12] == g[12];
  }

  /** Different hash inputs have different canonical texts. */
  lemma TextsDetermineInput(le: (string, string) -> bool, key: nat -> string, iso: int -> string,
                            x: EC.HashInput, y: EC.HashInput)
    requires TotalOrder(le) && DistinctNames(key) && forall a, b :: iso(a) == iso(b) ==> a == b
    requires CanonicalText(le, key, iso, x) == CanonicalText(le, key, iso, y)
    ensures x == y
  {
    hide Fields, Members, CJ.Canonicalize, CJ.WellFormed, CJ.Equivalent, TotalOrder, DistinctNames, Scalars;
    var f, g := Fields(iso, x), Fields(iso, y);
    FieldsAreScalars(iso, x);
    FieldsAreScalars(iso, y);
    MembersAreWellFormed(key, f);
    MembersAreWellFormed(key, g);
    CJ.CanonicalTextsAgree(le, CJ.Obj(Members(key, f)), CJ.Obj(Members(key, g)));
    CJ.CanonicalTextsAgree(le, CJ.Obj(Members(key, g)), CJ.Obj(Members(key, f)));
    SameFields(key, f, g);
    FieldsDetermineInput(iso, x, y);
  }

  /**
   * Two steps have the same checksum exactly when all hashed fields agree, unless SHA-256 maps two texts to one digest.
   */
  lemma ChecksumsAgree(le: (string, string) -> bool, sha: string -> string, key: nat -> string, iso: int -> string,
                       x: EC.HashInput, y: EC.HashInput)
    requires TotalOrder(le) && DistinctNames(key) && forall a, b :: iso(a) == iso(b) ==> a == b
    ensures ComputeRunStepChecksum(le, sha, key, iso, x) == ComputeRunStepChecksum(le, sha, key, iso, y)
       <==> x == y || IK.Collide(sha, CanonicalText(le, key, iso, x), CanonicalText(le, key, iso, y))
  {
    hide CanonicalText, TotalOrder, DistinctNames;
    if CanonicalText(le, key, iso, x) == CanonicalText(le, key, iso, y) {
      TextsDetermineInput(le, key, iso, x, y);
    }
  }

  /** So what the chain asks of its checksum holds of the computed one. */
  lemma ChecksumIsNeverEmpty(
      le: (string, string) -> bool, sha: string -> string, key: nat -> string, iso: int -> string)
    requires IK.IsDigest(sha)
    ensures EC.NeverEmpty(x => ComputeRunStepChecksum(le, sha, key, iso, x))
  {
    hide CanonicalText;
    forall x: EC.HashInput ensures ComputeRunStepChecksum(le, sha, key, iso, x) != "" {
      assert |ComputeRunStepChecksum(le, sha, key, iso, x)| == 64;
    }
  }
}
