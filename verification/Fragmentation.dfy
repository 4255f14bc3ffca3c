/** How send splits a payload (client.rs, `send`), against section 5.4 of RFC 6455. */
module Fragmentation {
  import opened Bits
  import opened Bytes
  import opened Wrappers
  import opened Frames
  import opened Session
  import opened Outgoing
  import opened Codec
  import Utf8
  import Rfc = Rfc6455

  function Concat(fs: seq<Frame>): seq<byte> {
    if fs == [] then [] else fs[0].data + Concat(fs[1..])
  }

  lemma DivStep(a: nat, d: nat)
    requires d > 0
    ensures (a + d) / d == a / d + 1
  {
    var q, r := a / d, a % d;
    assert a + d == (q + 1) * d + r;
    DivUnique(a + d, d, q + 1, r);
  }

  lemma {:induction false} CountFrom(payload: Slice, size: Positive, masks: nat -> Mask, sent: nat)
    requires CutsOk(payload, size, sent) && sent < |payload|
    ensures |Fragments(payload, size, masks, sent)| == (|payload| - sent + size - 1) / size
    decreases |payload| - sent
  {
    var n := |payload| - sent;
    if sent + size >= |payload| {
      assert Fragments(payload, size, masks, sent + size) == [];
      DivUnique(n + size - 1, size, 1, n - 1);
    } else {
      CountFrom(payload, size, masks, sent + size);
      DivStep(n - size + size - 1, size);
    }
  }

  lemma {:induction false} ShapeFrom(payload: Slice, size: Positive, masks: nat -> Mask, sent: nat)
    requires CutsOk(payload, size, sent) && sent < |payload|
    ensures var fs := Fragments(payload, size, masks, sent);
            && Concat(fs) == payload[sent..]
            && forall k | 0 <= k < |fs| ::
                 && 1 <= |fs[k].data| <= size
                 && (fs[k].header.opcode == if k == 0 && sent == 0 then TEXT else CONTINUATION)
                 && (fs[k].header.flag == if k == |fs| - 1 then FIN else NOFLAG)
    decreases |payload| - sent
  {
    var fs := Fragments(payload, size, masks, sent);
    var rest := Fragments(payload, size, masks, sent + size);
    assert fs[1..] == rest && Concat(fs) == fs[0].data + Concat(rest);
    if sent + size >= |payload| {
      assert rest == [];
    } else {
      ShapeFrom(payload, size, masks, sent + size);
      assert payload[sent..sent + size] + payload[sent + size..] == payload[sent..];
    }
  }

  lemma {:induction false} MaskFrom(payload: Slice, size: Positive, masks: nat -> Mask, sent: nat, k: nat)
    requires k < |Fragments(payload, size, masks, sent)|
    ensures Fragments(payload, size, masks, sent)[k].header.mask == Some(masks(sent + k * size))
    decreases k
  {
    if k > 0 {
      MaskFrom(payload, size, masks, sent + size, k - 1);
      assert (k - 1) * size + size == k * size;
    }
  }

  /** Every fragment has the mask generated for its offset. */
  lemma FragmentMask(payload: Slice, size: Positive, masks: nat -> Mask, k: nat)
    requires k < |Fragments(payload, size, masks, 0)|
    ensures Fragments(payload, size, masks, 0)[k].header.mask == Some(masks(k * size))
  {
    MaskFrom(payload, size, masks, 0, k);
  }

  /**
   * A payload becomes ceil(length / size) frames of 1 to `size` bytes that concatenate to it: the
   * first is TEXT and the others are CONTINUATION, and the last one alone has FIN.
   */
  lemma FragmentShape(payload: Slice, size: Positive, masks: nat -> Mask)
    requires CutsOk(payload, size, 0)
    ensures var fs := Fragments(payload, size, masks, 0);
            && |fs| == (|payload| + size - 1) / size
            && Concat(fs) == payload
            && forall k | 0 <= k < |fs| ::
                 && 1 <= |fs[k].data| <= size
                 && (fs[k].header.opcode == if k == 0 then TEXT else CONTINUATION)
                 && (fs[k].header.flag == if k == |fs| - 1 then FIN else NOFLAG)
  {
    if |payload| > 0 {
      CountFrom(payload, size, masks, 0);
      ShapeFrom(payload, size, masks, 0);
    } else {
      DivUnique(size - 1, size, 0, size - 1);
    }
  }

  /** send gets through exactly when no multiple of the message size falls inside a character. */
  lemma {:induction false} CutsOkIff(payload: Slice, size: Positive, sent: nat)
    requires sent % size == 0 && (sent < |payload| ==> Utf8.CharBoundary(payload, sent))
    ensures CutsOk(payload, size, sent) <==>
            forall i | sent <= i < |payload| && i % size == 0 :: Utf8.CharBoundary(payload, i)
    decreases |payload| - sent
  {
    if sent < |payload| {
      var next := sent + size;
      NextMultiple(sent, size);
      if next < |payload| {
        if Utf8.CharBoundary(payload, next) {
          CutsOkIff(payload, size, next);
        }
        assert CutsOk(payload, size, sent) ==> Utf8.CharBoundary(payload, next);
      }
    }
  }

  lemma NextMultiple(n: nat, d: nat)
    requires d > 0 && n % d == 0
    ensures (n + d) % d == 0
    ensures forall i {:trigger i % d} | n < i < n + d :: i % d != 0
  {
    var q := n / d;
    assert n + d == (q + 1) * d;
    DivUnique(n + d, d, q + 1, 0);
    forall i | n < i < n + d ensures i % d != 0 {
      DivUnique(i, d, q, i - n);
    }
  }

  // ---- What a server makes of the fragments ----

  function Wires(fs: seq<Frame>): (ws: seq<Rfc.WireFrame>)
    ensures |ws| == |fs|
  {
    seq(|fs|, i requires 0 <= i < |fs| => ToWire(fs[i]))
  }

  /** The receiver after part of a message. */
  function Begun(messages: seq<seq<byte>>, payload: seq<byte>, sent: nat): Rfc.Received
    requires sent <= |payload|
  {
    Rfc.Received(messages, if sent == 0 then None else Some(payload[..sent]))
  }

  lemma DeliverFragment(ms: seq<seq<byte>>, payload: Slice, size: Positive, masks: nat -> Mask, sent: nat)
    requires sent < |payload|
    ensures Rfc.Deliver(Begun(ms, payload, sent), ToWire(Fragment(payload, size, masks, sent))) ==
            Some(if sent + size >= |payload| then Rfc.Received(ms + [payload], None)
                 else Begun(ms, payload, sent + size))
  {
    var f := Fragment(payload, size, masks, sent);
    OutContents(f);
    assert payload[..sent] + payload[sent..Min(sent + size, |payload|)] == payload[..Min(sent + size, |payload|)];
    assert payload[..|payload|] == payload;
    assert sent == 0 ==> payload[0..Min(sent + size, |payload|)] == payload[..Min(sent + size, |payload|)];
  }

  /** At most one message unfinished, and that one a proper part of the next payload. */
  predicate Partway(r: Option<Rfc.Received>, ps: seq<seq<byte>>) {
    && r.Some?
    && r.value.messages <= ps
    && (r.value.partial.Some? ==>
        && |r.value.messages| < |ps|
        && r.value.partial.value != []
        && r.value.partial.value < ps[|r.value.messages|])
  }

  /** The first k fragments of a payload leave the receiver part way; all of them complete it. */
  lemma {:induction false} DeliverFragments(ms: seq<seq<byte>>, payload: Slice, size: Positive,
                                            masks: nat -> Mask, sent: nat, k: nat)
    requires CutsOk(payload, size, sent) && sent < |payload|
    requires k <= |Fragments(payload, size, masks, sent)|
    ensures var fs := Fragments(payload, size, masks, sent);
            var r := Rfc.DeliverAll(Begun(ms, payload, sent), Wires(fs[..k]));
            && (k == |fs| ==> r == Some(Rfc.Received(ms + [payload], None)))
            && Partway(r, ms + [payload])
    decreases |payload| - sent
  {
    var fs := Fragments(payload, size, masks, sent);
    if k == 0 {
      assert fs[..0] == [];
      assert ms <= ms + [payload];
    } else {
      DeliverFragment(ms, payload, size, masks, sent);
      var rest := Fragments(payload, size, masks, sent + size);
      assert Wires(fs[..k])[0] == ToWire(fs[0]);
      assert Wires(fs[..k])[1..] == Wires(rest[..k - 1]);
      if sent + size >= |payload| {
        assert rest == [] && k == 1;
      } else {
        DeliverFragments(ms, payload, size, masks, sent + size, k - 1);
      }
    }
  }

  /** The frames carry the payloads: every prefix leaves a server part way through them. */
  ghost predicate Faithful(fs: seq<Frame>, ps: seq<seq<byte>>) {
    && Rfc.DeliverAll(Rfc.NOTHING, Wires(fs)) == Some(Rfc.Received(ps, None))
    && forall k | 0 <= k <= |fs| :: Partway(Rfc.DeliverAll(Rfc.NOTHING, Wires(fs[..k])), ps)
  }

  lemma WiresConcat(a: seq<Frame>, b: seq<Frame>)
    ensures Wires(a + b) == Wires(a) + Wires(b)
  {
  }

  lemma FaithfulAppend(fs: seq<Frame>, ps: seq<seq<byte>>, payload: Slice, size: Positive, masks: nat -> Mask)
    requires Faithful(fs, ps) && payload != [] && CutsOk(payload, size, 0)
    ensures Faithful(fs + Fragments(payload, size, masks, 0), ps + [payload])
  {
    var gs := Fragments(payload, size, masks, 0);
    forall k | 0 <= k <= |fs| + |gs|
      ensures Partway(Rfc.DeliverAll(Rfc.NOTHING, Wires((fs + gs)[..k])), ps + [payload])
      ensures k == |fs| + |gs| ==>
                Rfc.DeliverAll(Rfc.NOTHING, Wires((fs + gs)[..k])) == Some(Rfc.Received(ps + [payload], None))
    {
      if k <= |fs| {
        assert (fs + gs)[..k] == fs[..k];
        CountFrom(payload, size, masks, 0);
      } else {
        assert (fs + gs)[..k] == fs + gs[..k - |fs|];
        WiresConcat(fs, gs[..k - |fs|]);
        Rfc.DeliverAllConcat(Rfc.NOTHING, Wires(fs), Wires(gs[..k - |fs|]));
        DeliverFragments(ps, payload, size, masks, 0, k - |fs|);
      }
    }
    assert (fs + gs)[..|fs| + |gs|] == fs + gs;
  }
}
