/** Keys made by writing identifiers one after the other with a colon between them. */
module Keys {
  import opened CanonicalJson

  function Joined(head: Text, tail: Text): Text {
    head + [COLON] + tail
  }

  predicate ColonFree(t: Text) {
    COLON !in t
  }

  /** Of two heads that start the same key, the shorter one followed by a colon starts the other. */
  lemma HeadsNest(a: Text, x: Text, b: Text, y: Text)
    requires Joined(a, x) == Joined(b, y) && |a| <= |b|
    ensures a + [COLON] <= b + [COLON]
    ensures |a| < |b| ==> b[|a|] == COLON
    ensures |a| == |b| ==> a == b && x == y
  {
    var key := Joined(a, x);
    assert key[..|a| + 1] == a + [COLON];
    assert key[..|b| + 1] == b + [COLON];
    assert (b + [COLON])[..|a| + 1] == key[..|a| + 1];
    if |a| < |b| {
      assert (b + [COLON])[|a|] == key[|a|] == COLON;
    }
    if |a| == |b| {
      assert a == key[..|a|] == b;
      assert x == key[|a| + 1..] == y;
    }
  }

  /** A key can be taken apart again when its head holds no colon. */
  lemma JoinedInjective(a: Text, x: Text, b: Text, y: Text)
    requires ColonFree(a) && ColonFree(b)
    ensures Joined(a, x) == Joined(b, y) <==> a == b && x == y
  {
    if Joined(a, x) == Joined(b, y) {
      if |a| <= |b| {
        HeadsNest(a, x, b, y);
      } else {
        HeadsNest(b, y, a, x);
      }
    }
  }

  lemma InMiddle(a: Text, middle: Text, x: Text)
    ensures forall i :: |a| < i <= |a| + |middle| ==> Joined(a, Joined(middle, x))[i] in middle
  {
    forall i | |a| < i <= |a| + |middle|
      ensures Joined(a, Joined(middle, x))[i] in middle
    {
      assert Joined(a, Joined(middle, x))[i] == middle[i - |a| - 1];
    }
  }

  /** With three parts, the middle one without a colon: a longer head swallows the whole middle part. */
  lemma MiddleSwallowed(a: Text, middle: Text, x: Text, b: Text, y: Text)
    requires ColonFree(middle) && a != b && |a| <= |b| && Joined(a, Joined(middle, x)) == Joined(b, y)
    ensures Joined(a, middle) + [COLON] <= b + [COLON]
  {
    var key := Joined(b, y);
    HeadsNest(a, Joined(middle, x), b, y);
    assert key[|b|] == COLON;
    InMiddle(a, middle, x);
    assert Joined(Joined(a, middle), x) == key;
    HeadsNest(Joined(a, middle), x, b, y);
  }

  lemma MiddleRestored(a: Text, middle: Text, b: Text, y: Text) returns (x: Text)
    requires Joined(a, middle) + [COLON] <= b + [COLON]
    ensures Joined(a, Joined(middle, x)) == Joined(b, y)
  {
    var inner := Joined(a, middle) + [COLON];
    var rest := (b + [COLON])[|inner|..];
    x := rest + y;
    assert inner + rest == b + [COLON];
    assert inner + (rest + y) == (inner + rest) + y;
    assert Joined(a, Joined(middle, x)) == inner + x;
  }
}
