/**
 The embedded SignedCertificateTimestampList (section 3.3 of RFC 6962): a
 16-bit length, then entries prefixed with 16-bit lengths. Only the framing is
 walked, and the list's own length is not looked at.
 */
module SctList {
  import opened Prelude

  function Size(b: seq<Byte>): nat
    requires |b| >= 2
  {
    b[0] as int * 256 + b[1] as int
  }

  /** b starts with a whole entry. */
  predicate StartsWhole(b: seq<Byte>) {
    |b| >= 2 && |b| >= 2 + Size(b)
  }

  /** How many whole entries b starts with. */
  function Framed(b: seq<Byte>): nat
    decreases |b|
  {
    if StartsWhole(b) then 1 + Framed(b[2 + Size(b)..]) else 0
  }

  /** The number of entries in the extension's value; list is empty if there is none. */
  method EmbeddedSCTs(list: seq<Byte>) returns (count: nat)
    ensures count == if |list| < 2 then 0 else Framed(list[2..])
  {
    if |list| < 2 {
      return 0;
    }
    var body := list[2..];
    count := 0;
    while |body| >= 2
      invariant count + Framed(body) == Framed(list[2..])
      decreases |body|
    {
      var size := Size(body);
      if |body| < 2 + size {
        break;
      }
      body := body[2 + size..];
      count := count + 1;
    }
  }

  // ----- serialised lists

  type Entry = e: seq<Byte> | |e| < 0x1_0000

  function Prefixed(e: Entry): seq<Byte> {
    [(|e| / 256) as Byte, (|e| % 256) as Byte] + e
  }

  function Serialise(es: seq<Entry>): seq<Byte> {
    if es == [] then [] else Prefixed(es[0]) + Serialise(es[1..])
  }

  lemma PrefixedIsWhole(e: Entry, rest: seq<Byte>)
    ensures var b := Prefixed(e) + rest;
            StartsWhole(b) && Size(b) == |e| && b[2..2 + Size(b)] == e && b[2 + Size(b)..] == rest
  {
    var b := Prefixed(e) + rest;
    assert b[0] == Prefixed(e)[0] && b[1] == Prefixed(e)[1];
  }

  /** Entries in front of anything are all counted. */
  lemma {:induction false} SerialisedAreCounted(es: seq<Entry>, rest: seq<Byte>)
    ensures Framed(Serialise(es) + rest) == |es| + Framed(rest)
  {
    if es == [] {
      assert Serialise(es) + rest == rest;
    } else {
      SerialisedAreCounted(es[1..], rest);
      PrefixedIsWhole(es[0], Serialise(es[1..]) + rest);
      assert Serialise(es) + rest == Prefixed(es[0]) + (Serialise(es[1..]) + rest);
    }
  }

  /** On a well-formed list the count is the number of entries, whatever its outer length says. */
  lemma RoundTrip(outer: seq<Byte>, es: seq<Entry>)
    requires |outer| == 2
    ensures Framed((outer + Serialise(es))[2..]) == |es|
  {
    assert (outer + Serialise(es))[2..] == Serialise(es) + [];
    SerialisedAreCounted(es, []);
  }

  /** Any bytes are some whole entries, as many as are counted, and a rest that starts with none. */
  lemma {:induction false} EveryBodyIsEntriesAndRest(b: seq<Byte>) returns (es: seq<Entry>, rest: seq<Byte>)
    ensures b == Serialise(es) + rest && !StartsWhole(rest) && |es| == Framed(b)
    decreases |b|
  {
    if StartsWhole(b) {
      var first, tail := b[2..2 + Size(b)], b[2 + Size(b)..];
      var later;
      later, rest := EveryBodyIsEntriesAndRest(tail);
      es := [first] + later;
      assert Size(b) < 0x1_0000 && b == Prefixed(first) + tail;
      assert es[1..] == later;
    } else {
      es, rest := [], b;
    }
  }

  /** No way of splitting whole entries off the front finds more than the walk does. */
  lemma CountIsLargest(b: seq<Byte>, es: seq<Entry>, rest: seq<Byte>)
    requires b == Serialise(es) + rest
    ensures |es| <= Framed(b)
    ensures |es| == Framed(b) <==> !StartsWhole(rest)
  {
    SerialisedAreCounted(es, rest);
  }
}
