/**
 The components that identify an idempotency unit and the text that is hashed into their fingerprint.
 */
module Fingerprints {
  import opened Prelude
  import opened Texts
  import opened KeyedLists
  import opened CanonicalJson
  import opened CanonicalParser
  import Numbers
  import Money

  datatype Actor = Ai | Human | Automation

  datatype Components = Components(
    actor: Actor,
    tenant: Option<Text>,
    action: Text,
    input: Json,
    taskRef: Text,
    isMutating: bool,
    estimateMin: Numbers.Num,
    estimateMax: Numbers.Num)
  {
    /** The refinements of the contract: a tenant is named, the estimate is ordered and within the safe range. */
    predicate Valid() {
      && (tenant.Some? ==> 1 <= |tenant.value| <= 128)
      && 3 <= |action| <= 128
      && 1 <= |taskRef| <= 256
      && Proper(input)
      && 0.0 <= Numbers.ValueOf(estimateMin) <= Numbers.ValueOf(estimateMax)
      && Numbers.ValueOf(estimateMax) <= Money.MAX_SAFE as real / Money.MICRO_USD_PER_USD
    }
  }

  function ActorText(a: Actor): Text {
    match a
    case Ai => Ascii("ai")
    case Human => Ascii("human")
    case Automation => Ascii("system")
  }

  function NullableText(t: Option<Text>): Json {
    match t { case None => Null case Some(s) => Str(s) }
  }

  function EstimateMembers(c: Components): seq<Keyed<Json>> {
    [ Keyed(Ascii("currency"), Str(Ascii("usd"))),
      Keyed(Ascii("min"), Number(c.estimateMin)),
      Keyed(Ascii("max"), Number(c.estimateMax)) ]
  }

  function ComponentMembers(c: Components): seq<Keyed<Json>> {
    [ Keyed(Ascii("contract_version"), Str(Ascii("gev.m3.ledger.v1"))),
      Keyed(Ascii("fingerprint_version"), Str(Ascii("gev.m3.fingerprint.v1"))),
      Keyed(Ascii("actor"), Str(ActorText(c.actor))),
      Keyed(Ascii("tenant_id"), NullableText(c.tenant)),
      Keyed(Ascii("action"), Str(c.action)),
      Keyed(Ascii("input"), c.input),
      Keyed(Ascii("task_ref"), Str(c.taskRef)),
      Keyed(Ascii("is_mutating"), Bool(c.isMutating)),
      Keyed(Ascii("estimate"), Obj(EstimateMembers(c))) ]
  }

  /** `canonicalizeLedgerComponents`. */
  function ComponentText(c: Components): Text {
    Canonicalize(Obj(ComponentMembers(c)))
  }

  /** The same request: every field equal, the input up to the order in which its keys were inserted. */
  ghost predicate SameComponents(c: Components, d: Components) {
    c.(input := Null) == d.(input := Null) && SameValue(c.input, d.input)
  }

  lemma ActorTextsDiffer(a: Actor, b: Actor)
    requires ActorText(a) == ActorText(b)
    ensures a == b
  {
    assert |ActorText(a)| == |ActorText(b)|;
  }

  lemma EstimateTextIdentifies(c: Components, d: Components)
    requires Normalize(Obj(EstimateMembers(c))) == Normalize(Obj(EstimateMembers(d)))
    ensures c.estimateMin == d.estimateMin && c.estimateMax == d.estimateMax
  {
    var a, b := EstimateMembers(c), EstimateMembers(d);
    CanonicalizePrintsNormalForm(Obj(a));
    CanonicalizePrintsNormalForm(Obj(b));
    assert Keys(a) == Keys(b);
    SameShapeSameValues(a, b);
    assert Normalize(a[1].value) == Normalize(b[1].value);
    assert Normalize(a[2].value) == Normalize(b[2].value);
  }

  lemma ComponentKeysAreFixed(c: Components, d: Components)
    ensures Keys(ComponentMembers(c)) == Keys(ComponentMembers(d))
  {
    var a, b := ComponentMembers(c), ComponentMembers(d);
    forall i | 0 <= i < |a| ensures a[i].key == b[i].key {
    }
    assert |Keys(a)| == |Keys(b)|;
  }

  lemma EqualTextsHaveEqualFields(c: Components, d: Components)
    requires ComponentText(c) == ComponentText(d)
    ensures ActorText(c.actor) == ActorText(d.actor)
    ensures NullableText(c.tenant) == NullableText(d.tenant)
    ensures c.action == d.action && c.taskRef == d.taskRef && c.isMutating == d.isMutating
    ensures Normalize(c.input) == Normalize(d.input)
    ensures Normalize(Obj(EstimateMembers(c))) == Normalize(Obj(EstimateMembers(d)))
  {
    ComponentKeysAreFixed(c, d);
    var a, b := ComponentMembers(c), ComponentMembers(d);
    SameShapeSameValues(a, b);
    assert Normalize(a[2].value) == Normalize(b[2].value);
    assert Normalize(a[3].value) == Normalize(b[3].value);
    assert Normalize(a[4].value) == Normalize(b[4].value);
    assert Normalize(a[5].value) == Normalize(b[5].value);
    assert Normalize(a[6].value) == Normalize(b[6].value);
    assert Normalize(a[7].value) == Normalize(b[7].value);
    assert Normalize(a[8].value) == Normalize(b[8].value);
  }

  lemma EqualTextsComeFromTheSameRequest(c: Components, d: Components)
    requires Proper(c.input) && Proper(d.input)
    requires ComponentText(c) == ComponentText(d)
    ensures SameComponents(c, d)
  {
    EqualTextsHaveEqualFields(c, d);
    ActorTextsDiffer(c.actor, d.actor);
    NormalFormsOfSameValue(c.input, d.input);
    EstimateTextIdentifies(c, d);
  }

  lemma TheSameRequestHasOneText(c: Components, d: Components)
    requires Proper(c.input) && Proper(d.input)
    requires SameComponents(c, d)
    ensures ComponentText(c) == ComponentText(d)
  {
    var a, b := ComponentMembers(c), ComponentMembers(d);
    ComponentKeysAreFixed(c, d);
    NormalFormsOfSameValue(c.input, d.input);
    forall i | 0 <= i < |a| ensures Normalize(a[i].value) == Normalize(b[i].value) {
      assert i == 5 || a[i] == b[i];
    }
    SameNormalValuesSameText(a, b);
  }

  /** Two requests have the same fingerprint text exactly when they are the same request. */
  lemma ComponentTextIdentifies(c: Components, d: Components)
    requires Proper(c.input) && Proper(d.input)
    ensures ComponentText(c) == ComponentText(d) <==> SameComponents(c, d)
  {
    if ComponentText(c) == ComponentText(d) { EqualTextsComeFromTheSameRequest(c, d); }
    if SameComponents(c, d) { TheSameRequestHasOneText(c, d); }
  }
}
