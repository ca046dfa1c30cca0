/** The choice of a verification key from a JWKS, by the token's kid. */
module Keys {
  import opened Options

  /** An entry of the list: an object with a kid, if it has one, and everything else; or no object. */
  datatype Jwk = Jwk(kid: Option<string>, material: string) | NoObject

  /** Crashed: an entry that is no object was asked for its kid. */
  datatype Selection = Found(key: Jwk) | NoKey | Crashed

  predicate HasKid(key: Jwk, kid: Option<string>) {
    key.Jwk? && key.kid == kid
  }

  /** The first key with the kid; without a kid, the only key there is. */
  function Select(keys: seq<Jwk>, kid: Option<string>): Selection {
    match kid
    case None => if |keys| == 1 then Found(keys[0]) else NoKey
    case Some(_) =>
      if keys == [] then NoKey
      else if keys[0].NoObject? then Crashed
      else if keys[0].kid == kid then Found(keys[0])
      else Select(keys[1..], kid)
  }

  method SelectJwk(keys: seq<Jwk>, kid: Option<string>) returns (selection: Selection)
    ensures selection == Select(keys, kid)
  {
    if kid.Some? {
      for i := 0 to |keys|
        invariant Select(keys, kid) == Select(keys[i..], kid)
      {
        if keys[i].NoObject? {
          return Crashed;
        }
        if keys[i].kid == kid {
          return Found(keys[i]);
        }
      }
      return NoKey;
    }
    return if |keys| == 1 then Found(keys[0]) else NoKey;
  }

  /** An entry the search stops at. */
  predicate Decides(key: Jwk, kid: Option<string>) {
    key.NoObject? || key.kid == kid
  }

  /** The answer is decided by the first entry that is no object or carries the kid, at i. */
  lemma {:induction false} SelectFinds(keys: seq<Jwk>, kid: Option<string>) returns (i: nat)
    requires kid.Some?
    ensures i <= |keys| && forall j :: 0 <= j < i ==> !Decides(keys[j], kid)
    ensures i < |keys| ==> Decides(keys[i], kid)
    ensures Select(keys, kid) ==
            if i == |keys| then NoKey else if keys[i].NoObject? then Crashed else Found(keys[i])
  {
    if keys == [] || Decides(keys[0], kid) {
      i := 0;
    } else {
      var rest := SelectFinds(keys[1..], kid);
      i := rest + 1;
    }
  }

  /** Without a kid the answer is the one entry of a list of one, whatever it is, and otherwise no key. */
  lemma KeylessIff(keys: seq<Jwk>, key: Jwk)
    ensures Select(keys, None) == Found(key) <==> keys == [key]
    ensures Select(keys, None) == NoKey <==> |keys| != 1
  {
  }

  ghost predicate Permutes(p: seq<Jwk>, keys: seq<Jwk>) {
    multiset(p) == multiset(keys)
  }

  /** No two different keys carry the kid, and if one does every entry is an object. */
  ghost predicate Unambiguous(keys: seq<Jwk>, kid: Option<string>) {
    && (forall a, b :: a in keys && b in keys && HasKid(a, kid) && HasKid(b, kid) ==> a == b)
    && (NoObject in keys ==> forall key :: key in keys ==> !HasKid(key, kid))
  }

  lemma SameMembers(keys: seq<Jwk>, p: seq<Jwk>)
    requires Permutes(p, keys)
    ensures |p| == |keys| && forall key :: key in p <==> key in keys
  {
    assert forall key :: key in p <==> key in multiset(p);
    assert forall key :: key in keys <==> key in multiset(keys);
    assert |p| == |multiset(p)| == |multiset(keys)| == |keys|;
  }

  lemma SelectOnMembers(keys: seq<Jwk>, p: seq<Jwk>, kid: Option<string>)
    requires kid.Some? && Unambiguous(keys, kid) && forall key :: key in p <==> key in keys
    ensures Select(p, kid) == Select(keys, kid)
  {
    var i := SelectFinds(keys, kid);
    var j := SelectFinds(p, kid);
    if i < |keys| {
      assert keys[i] in p;
    }
    if j < |p| {
      assert p[j] in keys;
    }
  }

  lemma SelectIgnoresOrder(keys: seq<Jwk>, p: seq<Jwk>, kid: Option<string>)
    requires Permutes(p, keys) && (kid.Some? ==> Unambiguous(keys, kid))
    ensures Select(p, kid) == Select(keys, kid)
  {
    SameMembers(keys, p);
    if kid.Some? {
      SelectOnMembers(keys, p, kid);
    } else if |keys| == 1 {
      assert p[0] in keys;
    }
  }

  lemma MoveToFront(keys: seq<Jwk>, key: Jwk) returns (p: seq<Jwk>)
    requires key in keys
    ensures Permutes(p, keys) && p != [] && p[0] == key
  {
    var i :| 0 <= i < |keys| && keys[i] == key;
    p := [key] + keys[..i] + keys[i + 1..];
    assert keys == keys[..i] + [key] + keys[i + 1..];
  }

  /** Two entries that decide the answer differently when they come first. */
  lemma OrderMatters(keys: seq<Jwk>, kid: Option<string>, a: Jwk, b: Jwk) returns (pa: seq<Jwk>, pb: seq<Jwk>)
    requires kid.Some? && a in keys && b in keys && a != b && HasKid(a, kid) && (b == NoObject || HasKid(b, kid))
    ensures Permutes(pa, keys) && Permutes(pb, keys) && Select(pa, kid) != Select(pb, kid)
  {
    pa := MoveToFront(keys, a);
    pb := MoveToFront(keys, b);
  }

  /**
   Key selection is order-free exactly when the kid is unambiguous: every permutation of the list
   gives the same answer if and only if no two different keys carry the token's kid and no entry
   that is no object stands beside one that does. Without a kid the order never matters.
   */
  lemma OrderFreeIff(keys: seq<Jwk>, kid: Option<string>)
    ensures (forall p :: Permutes(p, keys) ==> Select(p, kid) == Select(keys, kid))
       <==> (kid.Some? ==> Unambiguous(keys, kid))
  {
    if kid.Some? ==> Unambiguous(keys, kid) {
      forall p | Permutes(p, keys)
        ensures Select(p, kid) == Select(keys, kid)
      {
        SelectIgnoresOrder(keys, p, kid);
      }
    } else {
      var a :| a in keys && HasKid(a, kid) && exists b :: b in keys && b != a && (b == NoObject || HasKid(b, kid));
      var b :| b in keys && b != a && (b == NoObject || HasKid(b, kid));
      var pa, pb := OrderMatters(keys, kid, a, b);
    }
  }
}
