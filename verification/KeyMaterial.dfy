/** What the OPRF key and the randomized password are derived from (src/opaque.rs). */
module KeyMaterial {
  import opened Errors
  import opened Serialization
  import opened Primitives
  import opened Hkdf
  import opened Opaque

  // ---------------------------------------------------------------------
  // The OPRF key of a credential
  // ---------------------------------------------------------------------

  /** Expanded from the seed over the credential identifier and a label, as a chain of HMACs. */
  ghost predicate MaterialOf(cs: Suite, seed: Bytes, credentialId: Bytes, blocks: seq<Bytes>, material: Bytes) {
    OutputOf(cs.oprfHash, seed, credentialId + Ascii("OprfKey"), cs.oprf.nok, blocks, material)
  }

  /** The OPRF key of a credential identifier. */
  ghost predicate DerivedKey(cs: Suite, seed: Bytes, credentialId: Bytes, key: Scalar) {
    exists blocks, material ::
      MaterialOf(cs, seed, credentialId, blocks, material)
      && cs.oprf.deriveKey(material, Ascii("OPAQUE-DeriveKeyPair")) == Some(key)
  }

  /** The evaluation of a blinded element for a credential identifier: multiplied by its key. */
  ghost predicate EvaluatedFor(cs: Suite, seed: Bytes, credentialId: Bytes, blinded: Elem, evaluation: Elem) {
    exists key :: DerivedKey(cs, seed, credentialId, key) && evaluation == cs.oprf.mul(key, blinded)
  }

  lemma MaterialIsChain(cs: Suite, seed: Bytes, credentialId: Bytes) returns (blocks: seq<Bytes>)
    requires cs.oprfHash.Lawful() && OprfKeyMaterial(cs, seed, credentialId).Ok?
    ensures MaterialOf(cs, seed, credentialId, blocks, OprfKeyMaterial(cs, seed, credentialId).value)
  {
    blocks := ExpandIsChain(cs.oprfHash, seed, credentialId + Ascii("OprfKey"), cs.oprf.nok);
  }

  /** What a server evaluates with the material of a credential identifier is the evaluation for that identifier. */
  lemma EvaluationIs(cs: Suite, seed: Bytes, credentialId: Bytes, blinded: Elem)
    requires cs.oprfHash.Lawful() && cs.oprf.Lawful() && OprfKeyMaterial(cs, seed, credentialId).Ok?
    requires Evaluate(cs.oprf, OprfKeyMaterial(cs, seed, credentialId).value, blinded).Ok?
    ensures EvaluatedFor(cs, seed, credentialId, blinded,
                         Evaluate(cs.oprf, OprfKeyMaterial(cs, seed, credentialId).value, blinded).value)
  {
    var blocks := MaterialIsChain(cs, seed, credentialId);
    var material := OprfKeyMaterial(cs, seed, credentialId).value;
    var key := cs.oprf.deriveKey(material, Ascii("OPAQUE-DeriveKeyPair")).value;
    assert cs.oprf.parseScalar(cs.oprf.serializeScalar(key)) == Some(key);
    assert DerivedKey(cs, seed, credentialId, key);
  }

  /**
   The key material separates credentials: two identifiers with one material are equal, or two named, different inputs
   of HMAC under the seed agree on the first n bytes, n being the length of the material or of the hash, whichever is
   less; when the material is at least as long as the hash this is a collision of HMAC.
   */
  lemma MaterialBinds(cs: Suite, seed: Bytes, id: Bytes, id': Bytes, n: nat)
    requires cs.oprfHash.Lawful() && |seed| == cs.oprfHash.nh
    requires n == if cs.oprf.nok < cs.oprfHash.nh then cs.oprf.nok else cs.oprfHash.nh
    requires OprfKeyMaterial(cs, seed, id).Ok? && OprfKeyMaterial(cs, seed, id) == OprfKeyMaterial(cs, seed, id')
    ensures var x, y := id + Ascii("OprfKey") + [1], id' + Ascii("OprfKey") + [1];
            id == id' || (x != y && cs.oprfHash.hmac(seed, x)[..n] == cs.oprfHash.hmac(seed, y)[..n])
    ensures cs.oprfHash.nh <= cs.oprf.nok ==>
              id == id' || cs.oprfHash.HmacCollision(seed, id + Ascii("OprfKey") + [1],
                                                     seed, id' + Ascii("OprfKey") + [1])
  {
    var h, name := cs.oprfHash, Ascii("OprfKey");
    var material := OprfKeyMaterial(cs, seed, id).value;
    var blocks := MaterialIsChain(cs, seed, id);
    var blocks' := MaterialIsChain(cs, seed, id');
    FirstBlock(h, seed, id + name, cs.oprf.nok, blocks, material, n);
    FirstBlock(h, seed, id' + name, cs.oprf.nok, blocks', material, n);
    if id + name + [1] == id' + name + [1] {
      LabelledEqual(id, id', name);
    }
    if h.nh <= cs.oprf.nok {
      var x, y := h.hmac(seed, id + name + [1]), h.hmac(seed, id' + name + [1]);
      assert x[..n] == x && y[..n] == y;
    }
  }

  // ---------------------------------------------------------------------
  // The randomized password
  // ---------------------------------------------------------------------

  /** The input of the OPRF's output hash, section 3.3.1 of RFC 9497. */
  function OutputInput(cs: Suite, password: Bytes, element: Elem): Bytes {
    Vec16(password) + (Vec16(cs.oprf.serializeElem(element)) + Ascii("Finalize"))
  }

  /** Extracted, under a key of zeros, from the OPRF's output followed by what key stretching makes of it. */
  ghost predicate Randomized(cs: Suite, password: Bytes, element: Elem, ksf: Option<Ksf>, prk: Bytes) {
    var y := cs.oprfHash.hash(OutputInput(cs, password, element));
    var stretched := ksf.GetOr(cs.defaultKsf).stretch(y);
    && stretched.Some?
    && prk == cs.oprfHash.hmac(Zeros(cs.oprfHash.nh), y + stretched.value)
  }

  function Zeros(n: nat): Bytes {
    seq(n, _ => 0)
  }

  /** The client's randomized password, for any blind and evaluation: exactly this, for the unblinded element. */
  lemma PasswordKeyIs(cs: Suite, password: Bytes, blind: Scalar, evaluation: Elem, ksf: Option<Ksf>, prk: Bytes)
    ensures PasswordDerivedKey(cs, password, blind, evaluation, ksf) == Ok(prk)
       <==> |password| < 0x1_0000 && Randomized(cs, password, cs.oprf.mul(cs.oprf.inv(blind), evaluation), ksf, prk)
  {
    assert Zeros(cs.oprfHash.nh) == seq(cs.oprfHash.nh, _ => 0);
  }

  /** What the OPRF and the stretching make of a password. */
  function Stretched(cs: Suite, password: Bytes, element: Elem, ksf: Option<Ksf>): Option<Bytes> {
    ksf.GetOr(cs.defaultKsf).stretch(cs.oprfHash.hash(OutputInput(cs, password, element)))
  }

  /** The pairs that can collide when two randomized passwords are equal. */
  function PasswordCandidates(cs: Suite, password: Bytes, element: Elem, ksf: Option<Ksf>, password': Bytes,
                              element': Elem, ksf': Option<Ksf>): seq<Collision>
  {
    var x, x' := OutputInput(cs, password, element), OutputInput(cs, password', element');
    var zeros := Zeros(cs.oprfHash.nh);
    [OfHmac(zeros, cs.oprfHash.hash(x) + Stretched(cs, password, element, ksf).GetOr([]),
            zeros, cs.oprfHash.hash(x') + Stretched(cs, password', element', ksf').GetOr([])),
     OfHash(x, x')]
  }

  lemma OutputInputUnique(cs: Suite, password: Bytes, element: Elem, password': Bytes, element': Elem)
    requires cs.oprf.LawfulEncodings() && cs.oprf.noe < 0x1_0000
    requires cs.oprf.validElem(element) && cs.oprf.validElem(element')
    requires |password| < 0x1_0000 && |password'| < 0x1_0000
    requires OutputInput(cs, password, element) == OutputInput(cs, password', element')
    ensures password == password' && element == element'
  {
    var o := cs.oprf;
    var name := Ascii("Finalize");
    TakeVec16Cat(password, Vec16(o.serializeElem(element)) + name);
    TakeVec16Cat(password', Vec16(o.serializeElem(element')) + name);
    TakeVec16Cat(o.serializeElem(element), name);
    TakeVec16Cat(o.serializeElem(element'), name);
    assert o.parseElem(o.serializeElem(element)) == o.parseElem(o.serializeElem(element'));
  }

  /**
   The randomized password binds the password, the OPRF element and the outcome of key stretching: two runs with one
   randomized password have all three in common, or one of the two candidate pairs collides.
   */
  lemma PasswordKeyBinds(cs: Suite, password: Bytes, element: Elem, ksf: Option<Ksf>, password': Bytes, element': Elem,
                         ksf': Option<Ksf>, prk: Bytes)
    returns (collision: Option<Collision>)
    requires cs.oprfHash.Lawful() && cs.oprf.LawfulEncodings() && cs.oprf.noe < 0x1_0000
    requires cs.oprf.validElem(element) && cs.oprf.validElem(element')
    requires |password| < 0x1_0000 && |password'| < 0x1_0000
    requires Randomized(cs, password, element, ksf, prk) && Randomized(cs, password', element', ksf', prk)
    ensures collision.Some? ==>
              && collision.value in PasswordCandidates(cs, password, element, ksf, password', element', ksf')
              && collision.value.Breaks(cs.oprfHash)
    ensures collision.None? ==>
              && password == password' && element == element'
              && Stretched(cs, password, element, ksf) == Stretched(cs, password', element', ksf')
  {
    var h := cs.oprfHash;
    var candidates := PasswordCandidates(cs, password, element, ksf, password', element', ksf');
    var y, y' := h.hash(OutputInput(cs, password, element)), h.hash(OutputInput(cs, password', element'));
    var t, t' := Stretched(cs, password, element, ksf).value, Stretched(cs, password', element', ksf').value;
    if y + t != y' + t' {
      return Some(candidates[0]);
    }
    Cancel(y, t, y', t');
    if OutputInput(cs, password, element) != OutputInput(cs, password', element') {
      return Some(candidates[1]);
    }
    OutputInputUnique(cs, password, element, password', element');
    collision := None;
  }
}
