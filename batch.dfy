/**
 * What Network::processBatch does with the decompressed payload of a
 * BatchPacket, as a function of the bytes. The payload is a run of entries,
 * each a 4-byte big-endian length followed by that many bytes; the second
 * byte of an entry is the packet id and the packet is decoded from offset 2.
 *
 * The registry is the map from slot id to the NETWORK_ID of the prototype
 * in that slot. What decoding and handling an entry does is given as a
 * function `outcome` of the prototype's NETWORK_ID, the entry bytes and the
 * read offset decoding starts from: it throws while decoding, throws in the
 * handler, or returns normally with the packet's read offset.
 *
 * Reading fewer than four header bytes, or indexing byte 1 of an entry
 * shorter than two bytes, raises an error under the server's error handler;
 * the catch around the whole loop then ends the batch (`Truncated`).
 */
module Batch {
  import opened Wire

  /** How decoding and handling one entry ends. */
  datatype Outcome = DecodeFailed | HandlerFailed | Handled(offset: int)

  /**
   * One packet handed to decode and the player's handleDataPacket: its
   * class, its buffer and the read offset its decoding starts from.
   */
  datatype Dispatch = Dispatch(kind: Byte, buffer: seq<Byte>, offset: int)

  /** setBuffer($buf, 2): decoding skips the entry's first two bytes. */
  const DecodeFrom: int := 2

  /** Why the loop ended. */
  datatype Stop =
    | Exhausted    // the offset reached the end of the payload
    | Truncated    // a header or an entry too short to read
    | NestedBatch  // a BatchPacket inside a BatchPacket
    | DecodeError  // decode threw
    | HandlerError // handleDataPacket threw
    | NoProgress   // the packet's offset was <= 0 after handling: early return

  datatype BatchRun = BatchRun(dispatched: seq<Dispatch>, stop: Stop)

  /** Slot id to the NETWORK_ID of the prototype registered there. */
  type Registry = map<Byte, Byte>

  /** Where the next entry starts once the header says the entry has n bytes. */
  function Next(s: seq<Byte>, n: int): (k: nat)
    requires |s| >= 4 && n >= 0
    ensures 4 <= k <= |s|
  {
    if 4 + n <= |s| then 4 + n else |s|
  }

  /**
   * Every length header the loop reads is non-negative. A negative header
   * would move the offset backwards; the model excludes it.
   */
  predicate HeadersNonNegative(s: seq<Byte>)
    decreases |s|
  {
    |s| < 4 || (ReadInt(s[..4]) >= 0 && HeadersNonNegative(s[Next(s, ReadInt(s[..4]))..]))
  }

  /**
   * What a dispatched packet has passed: its id is registered, it is not a
   * batch, its decoding started at offset 2 and did not throw.
   */
  predicate Accepted(d: Dispatch, reg: Registry, batchId: Byte, outcome: (Byte, seq<Byte>, int) -> Outcome)
  {
    && |d.buffer| >= 2
    && d.buffer[1] in reg
    && reg[d.buffer[1]] == d.kind
    && d.kind != batchId
    && d.offset == DecodeFrom
    && outcome(d.kind, d.buffer, d.offset) != DecodeFailed
  }

  /**
   * The loop over the remaining bytes s. Each dispatched entry used at
   * least six bytes of s: its header and the two bytes its id is read from.
   */
  function Run(s: seq<Byte>, reg: Registry, batchId: Byte,
               outcome: (Byte, seq<Byte>, int) -> Outcome): (r: BatchRun)
    requires HeadersNonNegative(s)
    ensures |r.dispatched| * 6 <= |s|
    decreases |s|
  {
    if s == [] then BatchRun([], Exhausted)
    else if |s| < 4 then BatchRun([], Truncated)
    else
      var n := ReadInt(s[..4]);
      var entry := Substr(s, 4, n);
      var rest := s[Next(s, n)..];
      if |entry| < 2 then BatchRun([], Truncated)
      else if entry[1] !in reg then Run(rest, reg, batchId, outcome)
      else
        var kind := reg[entry[1]];
        if kind == batchId then BatchRun([], NestedBatch)
        else
          match outcome(kind, entry, DecodeFrom)
          case DecodeFailed => BatchRun([], DecodeError)
          case HandlerFailed => BatchRun([Dispatch(kind, entry, DecodeFrom)], HandlerError)
          case Handled(off) =>
            if off <= 0 then BatchRun([Dispatch(kind, entry, DecodeFrom)], NoProgress)
            else
              var r := Run(rest, reg, batchId, outcome);
              BatchRun([Dispatch(kind, entry, DecodeFrom)] + r.dispatched, r.stop)
  }

  /**
   * Every dispatched packet came from a registered slot, was not a batch,
   * was at least two bytes long and decoded without an exception.
   */
  lemma {:induction false} RunAccepted(s: seq<Byte>, reg: Registry, batchId: Byte,
                                       outcome: (Byte, seq<Byte>, int) -> Outcome)
    requires HeadersNonNegative(s)
    ensures forall i | 0 <= i < |Run(s, reg, batchId, outcome).dispatched| ::
      Accepted(Run(s, reg, batchId, outcome).dispatched[i], reg, batchId, outcome)
    decreases |s|
  {
    if |s| >= 4 {
      var n := ReadInt(s[..4]);
      var entry := Substr(s, 4, n);
      var rest := s[Next(s, n)..];
      if |entry| >= 2 {
        RunAccepted(rest, reg, batchId, outcome);
        var tail := Run(rest, reg, batchId, outcome).dispatched;
        if entry[1] in reg && reg[entry[1]] != batchId && outcome(reg[entry[1]], entry, DecodeFrom).Handled?
           && outcome(reg[entry[1]], entry, DecodeFrom).offset > 0 {
          var d := Dispatch(reg[entry[1]], entry, DecodeFrom);
          var ds := Run(s, reg, batchId, outcome).dispatched;
          assert ds == [d] + tail;
          forall i | 0 <= i < |ds|
            ensures Accepted(ds[i], reg, batchId, outcome)
          {
            if i > 0 {
              assert ds[i] == tail[i - 1];
            }
          }
        }
      }
    }
  }

  /** One entry as a batch carries it: its length as a 4-byte int, then its bytes. */
  function Entry(e: seq<Byte>): (r: seq<Byte>)
    ensures |r| == 4 + |e|
  {
    WriteBE(|e|, 4) + e
  }

  /** A batch payload holding the given entries in order. */
  function Frame(es: seq<seq<Byte>>): seq<Byte>
  {
    if es == [] then [] else Entry(es[0]) + Frame(es[1..])
  }

  /** An entry a 4-byte signed length can describe. */
  predicate Fits(e: seq<Byte>)
  {
    2 * |e| < 0x1_0000_0000
  }

  /** The loop reads back the header, the entry and the rest exactly. */
  lemma EntryStep(e: seq<Byte>, t: seq<Byte>)
    requires Fits(e)
    ensures var s := Entry(e) + t;
      && ReadInt(s[..4]) == |e|
      && Substr(s, 4, |e|) == e
      && s[Next(s, |e|)..] == t
  {
    var s := Entry(e) + t;
    assert s[..4] == WriteBE(|e|, 4);
    assert Pow256(4) == 0x1_0000_0000 by {
      assert Pow256(1) == 256;
      assert Pow256(2) == 65536;
      assert Pow256(3) == 16777216;
    }
    ReadSignedWriteBE(|e|, 4);
    ReadIntSigned(s[..4]);
    assert s[4..4 + |e|] == e;
    assert s[4 + |e|..] == t;
  }

  /** A framed entry in front keeps every header non-negative. */
  lemma EntryHeaders(e: seq<Byte>, t: seq<Byte>)
    requires Fits(e) && HeadersNonNegative(t)
    ensures HeadersNonNegative(Entry(e) + t)
  {
    EntryStep(e, t);
  }

  lemma {:induction false} FrameHeaders(es: seq<seq<Byte>>)
    requires forall i | 0 <= i < |es| :: Fits(es[i])
    ensures HeadersNonNegative(Frame(es))
  {
    if es != [] {
      FrameHeaders(es[1..]);
      EntryHeaders(es[0], Frame(es[1..]));
    }
  }

  /** An entry whose id has no registered packet is skipped and the loop goes on. */
  lemma UnknownSkipped(e: seq<Byte>, t: seq<Byte>, reg: Registry, batchId: Byte,
                       outcome: (Byte, seq<Byte>, int) -> Outcome)
    requires Fits(e) && |e| >= 2 && e[1] !in reg && HeadersNonNegative(t)
    ensures HeadersNonNegative(Entry(e) + t)
    ensures Run(Entry(e) + t, reg, batchId, outcome) == Run(t, reg, batchId, outcome)
  {
    EntryStep(e, t);
  }

  /**
   * An entry that is registered, not a batch, and handled with a positive
   * offset is dispatched, and the loop goes on with the rest.
   */
  lemma HandledContinues(e: seq<Byte>, t: seq<Byte>, reg: Registry, batchId: Byte,
                         outcome: (Byte, seq<Byte>, int) -> Outcome)
    requires Fits(e) && |e| >= 2 && e[1] in reg && reg[e[1]] != batchId
    requires outcome(reg[e[1]], e, DecodeFrom).Handled? && outcome(reg[e[1]], e, DecodeFrom).offset > 0
    requires HeadersNonNegative(t)
    ensures HeadersNonNegative(Entry(e) + t)
    ensures var r := Run(t, reg, batchId, outcome);
      Run(Entry(e) + t, reg, batchId, outcome)
        == BatchRun([Dispatch(reg[e[1]], e, DecodeFrom)] + r.dispatched, r.stop)
  {
    EntryStep(e, t);
  }

  /**
   * The three ways a registered entry ends the batch: whatever follows it is
   * never dispatched. A nested batch or a decode error dispatches nothing; a
   * handler error or a non-positive offset leaves only this entry dispatched.
   */
  lemma EntryStops(e: seq<Byte>, t: seq<Byte>, reg: Registry, batchId: Byte,
                   outcome: (Byte, seq<Byte>, int) -> Outcome)
    requires Fits(e) && |e| >= 2 && e[1] in reg && HeadersNonNegative(t)
    ensures HeadersNonNegative(Entry(e) + t)
    ensures var r := Run(Entry(e) + t, reg, batchId, outcome);
      var kind := reg[e[1]];
      && (kind == batchId ==> r == BatchRun([], NestedBatch))
      && (kind != batchId && outcome(kind, e, DecodeFrom) == DecodeFailed ==> r == BatchRun([], DecodeError))
      && (kind != batchId && outcome(kind, e, DecodeFrom) == HandlerFailed ==>
            r == BatchRun([Dispatch(kind, e, DecodeFrom)], HandlerError))
      && (kind != batchId && outcome(kind, e, DecodeFrom).Handled? && outcome(kind, e, DecodeFrom).offset <= 0 ==>
            r == BatchRun([Dispatch(kind, e, DecodeFrom)], NoProgress))
  {
    EntryStep(e, t);
  }

  /** An entry shorter than two bytes ends the batch with nothing more dispatched. */
  lemma ShortEntryStops(e: seq<Byte>, t: seq<Byte>, reg: Registry, batchId: Byte,
                        outcome: (Byte, seq<Byte>, int) -> Outcome)
    requires |e| < 2 && HeadersNonNegative(t)
    ensures HeadersNonNegative(Entry(e) + t)
    ensures Run(Entry(e) + t, reg, batchId, outcome) == BatchRun([], Truncated)
  {
    EntryStep(e, t);
  }

  /** An entry whose id is registered: one the loop does not skip. */
  predicate Registered(e: seq<Byte>, reg: Registry)
  {
    |e| >= 2 && e[1] in reg
  }

  /**
   * The packets the registered entries among es stand for, in order; the
   * entries with an unregistered id contribute nothing.
   */
  function Dispatches(es: seq<seq<Byte>>, reg: Registry): (r: seq<Dispatch>)
    ensures |r| <= |es|
  {
    if es == [] then []
    else
      var head := if Registered(es[0], reg) then [Dispatch(reg[es[0][1]], es[0], DecodeFrom)] else [];
      head + Dispatches(es[1..], reg)
  }

  /** An entry the loop either skips, or dispatches and continues after. */
  predicate Passes(e: seq<Byte>, reg: Registry, batchId: Byte, outcome: (Byte, seq<Byte>, int) -> Outcome)
  {
    && Fits(e) && |e| >= 2
    && (e[1] in reg ==>
          && reg[e[1]] != batchId
          && outcome(reg[e[1]], e, DecodeFrom).Handled? && outcome(reg[e[1]], e, DecodeFrom).offset > 0)
  }

  /** One passing entry in front of u: its dispatch, if any, then u's run. */
  lemma PassStep(e: seq<Byte>, u: seq<Byte>, reg: Registry, batchId: Byte,
                 outcome: (Byte, seq<Byte>, int) -> Outcome)
    requires Passes(e, reg, batchId, outcome) && HeadersNonNegative(u)
    ensures HeadersNonNegative(Entry(e) + u)
    ensures var r := Run(u, reg, batchId, outcome);
      Run(Entry(e) + u, reg, batchId, outcome) == BatchRun(Dispatches([e], reg) + r.dispatched, r.stop)
  {
    var r := Run(u, reg, batchId, outcome);
    assert Dispatches([e][1..], reg) == [] by {
      assert [e][1..] == [e][..0];
    }
    if Registered(e, reg) {
      HandledContinues(e, u, reg, batchId, outcome);
      assert Dispatches([e], reg) == [Dispatch(reg[e[1]], e, DecodeFrom)];
    } else {
      UnknownSkipped(e, u, reg, batchId, outcome);
      assert Dispatches([e], reg) + r.dispatched == r.dispatched;
    }
  }

  lemma DispatchesCons(es: seq<seq<Byte>>, reg: Registry)
    requires es != []
    ensures Dispatches(es, reg) == Dispatches([es[0]], reg) + Dispatches(es[1..], reg)
  {
    assert [es[0]][1..] == es[..0];
  }

  /**
   * The entries dispatched before a stopping entry stay dispatched: a run of
   * passing entries in front only prepends their dispatches.
   */
  lemma {:induction false} PrefixKept(es: seq<seq<Byte>>, t: seq<Byte>, reg: Registry, batchId: Byte,
                                      outcome: (Byte, seq<Byte>, int) -> Outcome)
    requires forall i | 0 <= i < |es| :: Passes(es[i], reg, batchId, outcome)
    requires HeadersNonNegative(t)
    ensures HeadersNonNegative(Frame(es) + t)
    ensures var r := Run(t, reg, batchId, outcome);
      Run(Frame(es) + t, reg, batchId, outcome) == BatchRun(Dispatches(es, reg) + r.dispatched, r.stop)
  {
    var r := Run(t, reg, batchId, outcome);
    if es == [] {
      assert Frame(es) + t == t;
      assert Dispatches(es, reg) + r.dispatched == r.dispatched;
    } else {
      assert forall i | 0 <= i < |es[1..]| :: Passes(es[1..][i], reg, batchId, outcome) by {
        forall i | 0 <= i < |es[1..]|
          ensures Passes(es[1..][i], reg, batchId, outcome)
        {
          assert es[1..][i] == es[i + 1];
        }
      }
      PrefixKept(es[1..], t, reg, batchId, outcome);
      PrefixCons(es, t, reg, batchId, outcome);
    }
  }

  /** The inductive step of PrefixKept: one passing entry in front of the rest. */
  lemma PrefixCons(es: seq<seq<Byte>>, t: seq<Byte>, reg: Registry, batchId: Byte,
                   outcome: (Byte, seq<Byte>, int) -> Outcome)
    requires es != [] && Passes(es[0], reg, batchId, outcome)
    requires HeadersNonNegative(t) && HeadersNonNegative(Frame(es[1..]) + t)
    requires var r := Run(t, reg, batchId, outcome);
      Run(Frame(es[1..]) + t, reg, batchId, outcome)
        == BatchRun(Dispatches(es[1..], reg) + r.dispatched, r.stop)
    ensures HeadersNonNegative(Frame(es) + t)
    ensures var r := Run(t, reg, batchId, outcome);
      Run(Frame(es) + t, reg, batchId, outcome) == BatchRun(Dispatches(es, reg) + r.dispatched, r.stop)
  {
    var r := Run(t, reg, batchId, outcome);
    var u := Frame(es[1..]) + t;
    assert Frame(es) == Entry(es[0]) + Frame(es[1..]);
    AppendAssoc(Entry(es[0]), Frame(es[1..]), t);
    PassStep(es[0], u, reg, batchId, outcome);
    DispatchesCons(es, reg);
    AppendAssoc(Dispatches([es[0]], reg), Dispatches(es[1..], reg), r.dispatched);
  }

  /**
   * Splitting a framed payload gives back its entries: when every entry is
   * unregistered, or registered, not a batch and handled normally, the
   * registered ones are dispatched in the order they were framed, the
   * others are skipped, and the loop runs to the end.
   */
  lemma FrameRoundTrip(es: seq<seq<Byte>>, reg: Registry, batchId: Byte,
                       outcome: (Byte, seq<Byte>, int) -> Outcome)
    requires forall i | 0 <= i < |es| :: Passes(es[i], reg, batchId, outcome)
    ensures HeadersNonNegative(Frame(es))
    ensures Run(Frame(es), reg, batchId, outcome) == BatchRun(Dispatches(es, reg), Exhausted)
  {
    PrefixKept(es, [], reg, batchId, outcome);
    assert Frame(es) + [] == Frame(es);
    assert Dispatches(es, reg) + [] == Dispatches(es, reg);
  }
}
