/**
 * The network manager: the 256-slot packet registry, the traffic counters,
 * the registered interfaces and the batch splitter.
 *
 * An interface is identified by its spl_object_hash, written here as a
 * constant `hash` of the interface object. What an interface does when it
 * is told its name, its network or to shut down is not part of this model;
 * the interface records the call in a field.
 */
module Net {
  import opened Wire
  import opened Php
  import opened Protocol
  import opened Batch

  /** A network interface as the manager sees it. */
  class SourceInterface {
    /** spl_object_hash of this object. */
    const hash: int
    /** Whether the object is an AdvancedSourceInterface. */
    const advanced: bool
    /** The last name it was told. */
    var name: Option<string>
    /** The network it was attached to (advanced interfaces only). */
    var network: Network?
    /** Whether emergencyShutdown was called. */
    var shutDown: bool

    constructor (hash: int, advanced: bool)
      ensures this.hash == hash && this.advanced == advanced
      ensures name == None && network == null && !shutDown
    {
      this.hash, this.advanced := hash, advanced;
      name, network, shutDown := None, null, false;
    }

    method SetName(n: Option<string>)
      modifies this`name
      ensures name == n
    {
      name := n;
    }

    method SetNetwork(n: Network)
      modifies this`network
      ensures network == n
    {
      network := n;
    }

    method EmergencyShutdown()
      modifies this`shutDown
      ensures shutDown
    {
      shutDown := true;
    }
  }

  /** The interfaces of m whose `process` does not throw. */
  function Surviving(m: map<int, SourceInterface>, failing: set<SourceInterface>): (r: map<int, SourceInterface>)
    ensures r.Keys <= m.Keys
    ensures forall h | h in m :: (h in r <==> m[h] !in failing)
    ensures forall h | h in r :: r[h] == m[h]
  {
    map h | h in m && m[h] !in failing :: m[h]
  }

  /** The entries of m that survive once the keys in done have been processed. */
  ghost function Kept(m: map<int, SourceInterface>, done: seq<int>, failing: set<SourceInterface>): map<int, SourceInterface>
  {
    map h | h in m && (h !in done || m[h] !in failing) :: m[h]
  }

  lemma KeptNothing(m: map<int, SourceInterface>, failing: set<SourceInterface>)
    ensures Kept(m, [], failing) == m
  {
  }

  /**
   * all and adv are the interface maps processInterfaces started from:
   * every interface under its own hash, the advanced ones among them.
   */
  ghost predicate Indexed(all: map<int, SourceInterface>, adv: map<int, SourceInterface>)
  {
    && (forall h | h in all :: all[h].hash == h)
    && (forall h | h in adv :: h in all && adv[h] == all[h])
  }

  /**
   * Every interface of all is shut down exactly when it already was at the
   * start (was), or when its key has been processed and its process throws.
   */
  ghost predicate ShutDownAsOf(all: map<int, SourceInterface>, was: map<int, bool>, done: seq<int>,
                               failing: set<SourceInterface>)
    reads all.Values
  {
    forall h | h in all :: h in was && all[h].shutDown == (was[h] || (h in done && all[h] in failing))
  }

  /** Processing one more key drops it exactly when its interface fails. */
  lemma KeptStep(m: map<int, SourceInterface>, done: seq<int>, x: int, failing: set<SourceInterface>)
    ensures Kept(m, done + [x], failing)
      == if x in m && m[x] in failing then Kept(m, done, failing) - {x} else Kept(m, done, failing)
  {
    if !(x in m && m[x] in failing) {
      assert Kept(m, done + [x], failing).Keys == Kept(m, done, failing).Keys;
    }
  }

  /** Once every key has been processed, what is kept is what survives. */
  lemma KeptAll(m: map<int, SourceInterface>, done: seq<int>, failing: set<SourceInterface>)
    requires forall h | h in m :: h in done
    ensures Kept(m, done, failing) == Surviving(m, failing)
  {
    forall h | h in m
      ensures h in Kept(m, done, failing) <==> h in Surviving(m, failing)
    {
      assert h in done;
    }
  }

  /** s with every occurrence of x removed, the rest in the same order. */
  function Without(s: seq<int>, x: int): (r: seq<int>)
    ensures forall y | y in r :: y in s && y != x
    ensures forall y | y in s && y != x :: y in r
  {
    if s == [] then []
    else (if s[0] == x then [] else [s[0]]) + Without(s[1..], x)
  }

  /**
   * The registry left by registering each (id, NETWORK_ID) pair of t in
   * order over base: a later registration of an id replaces an earlier one.
   */
  function AfterRegistrations(base: Registry, t: seq<(Byte, Byte)>): (r: Registry)
    ensures r.Keys == base.Keys + (set i | 0 <= i < |t| :: t[i].0)
  {
    if t == [] then base
    else AfterRegistrations(base, t[..|t| - 1])[t[|t| - 1].0 := t[|t| - 1].1]
  }

  /** An id no pair of t registers keeps what base had for it. */
  lemma {:induction false} NeverRegistered(base: Registry, t: seq<(Byte, Byte)>, id: Byte)
    requires forall i | 0 <= i < |t| :: t[i].0 != id
    ensures id in AfterRegistrations(base, t) <==> id in base
    ensures id in base ==> AfterRegistrations(base, t)[id] == base[id]
  {
    if t != [] {
      var front := t[..|t| - 1];
      assert forall i | 0 <= i < |front| :: front[i] == t[i];
      NeverRegistered(base, front, id);
    }
  }

  /** The last registration of an id wins over every earlier one. */
  lemma {:induction false} LastRegistrationWins(base: Registry, t: seq<(Byte, Byte)>, i: nat)
    requires i < |t|
    requires forall j | i < j < |t| :: t[j].0 != t[i].0
    ensures t[i].0 in AfterRegistrations(base, t)
    ensures AfterRegistrations(base, t)[t[i].0] == t[i].1
  {
    var front := t[..|t| - 1];
    if i < |t| - 1 {
      assert forall j | 0 <= j < |front| :: front[j] == t[j];
      LastRegistrationWins(base, front, i);
    }
  }

  class Network {
    /** Info::BATCH_PACKET. */
    const batchId: Byte
    /** The SplFixedArray of 256 prototypes, indexed by packet id. */
    const packetPool: array<DataPacket?>
    var interfaces: map<int, SourceInterface>
    var advancedInterfaces: map<int, SourceInterface>
    /** The keys of `interfaces` in the order a foreach visits them: insertion order. */
    var order: seq<int>
    var upload: int
    var download: int
    var name: Option<string>

    /**
     * The pool has 256 slots; every interface is stored under its own hash;
     * the advanced map holds exactly the advanced interfaces, with the same
     * objects as the map of all interfaces.
     */
    ghost predicate Valid()
      reads this
    {
      && packetPool.Length == 256
      && advancedInterfaces.Keys <= interfaces.Keys
      && (forall h | h in order :: h in interfaces)
      && (forall h | h in interfaces :: h in order)
      && (forall h | h in interfaces :: interfaces[h].hash == h)
      && (forall h | h in interfaces :: (h in advancedInterfaces <==> interfaces[h].advanced))
      && (forall h | h in advancedInterfaces :: advancedInterfaces[h] == interfaces[h])
    }

    /** Slot id to the NETWORK_ID of the prototype held there. */
    ghost function PoolKinds(): Registry
      requires packetPool.Length == 256
      reads packetPool
    {
      map id: Byte | packetPool[id] != null :: packetPool[id].networkId
    }

    /**
     * `new Network($server)`: an empty pool filled by `registerPackets`,
     * which registers every (id, packet class) pair of `table` in order.
     */
    constructor (batchId: Byte, table: seq<(Byte, Byte)>)
      ensures Valid() && fresh(packetPool)
      ensures this.batchId == batchId
      ensures PoolKinds() == AfterRegistrations(map[], table)
      ensures interfaces == map[] && advancedInterfaces == map[] && order == []
      ensures upload == 0 && download == 0 && name == None
    {
      this.batchId := batchId;
      packetPool := new DataPacket?[256](_ => null);
      interfaces, advancedInterfaces, order := map[], map[], [];
      upload, download := 0, 0;
      name := None;
      new;
      assert PoolKinds() == map[];
      RegisterPackets(table);
    }

    /** The 49 registerPacket calls, one per pair of `table`, in order. */
    method RegisterPackets(table: seq<(Byte, Byte)>)
      requires packetPool.Length == 256
      modifies packetPool
      ensures PoolKinds() == AfterRegistrations(old(PoolKinds()), table)
    {
      for i := 0 to |table|
        invariant PoolKinds() == AfterRegistrations(old(PoolKinds()), table[..i])
      {
        RegisterPacket(table[i].0, table[i].1);
        assert table[..i + 1][..i] == table[..i];
      }
      assert table[..|table|] == table;
    }

    /** `new $class` stored in slot id, replacing what was there. */
    method RegisterPacket(id: Byte, kind: Byte)
      requires packetPool.Length == 256
      modifies packetPool
      ensures packetPool[id] != null && fresh(packetPool[id]) && packetPool[id].networkId == kind
      ensures packetPool[id].buffer == [] && packetPool[id].offset == 0
      ensures forall j | 0 <= j < 256 && j != id :: packetPool[j] == old(packetPool[j])
      ensures PoolKinds() == old(PoolKinds())[id := kind]
    {
      packetPool[id] := new DataPacket(kind);
    }

    /**
     * A clone of the prototype in slot id, or null for an empty slot. The
     * clone is a new object, so the prototype is never handed out.
     */
    method GetPacket(id: Byte) returns (p: DataPacket?)
      requires packetPool.Length == 256
      ensures p == null <==> packetPool[id] == null
      ensures p != null ==> fresh(p) && p.networkId == packetPool[id].networkId
                            && p.buffer == packetPool[id].buffer && p.offset == packetPool[id].offset
    {
      var proto := packetPool[id];
      if proto != null {
        p := new DataPacket.Clone(proto);
      } else {
        p := null;
      }
    }

    method AddStatistics(up: int, down: int)
      modifies this`upload, this`download
      ensures upload == old(upload) + up && download == old(download) + down
    {
      upload := upload + up;
      download := download + down;
    }

    method GetUpload() returns (r: int)
      ensures r == upload
    {
      r := upload;
    }

    method GetDownload() returns (r: int)
      ensures r == download
    {
      r := download;
    }

    method ResetStatistics()
      modifies this`upload, this`download
      ensures upload == 0 && download == 0
    {
      upload, download := 0, 0;
    }

    /**
     * Store i under its hash, in the advanced map too when it is advanced
     * (and attach it to this network), then tell it the current name. The
     * hash of a live object belongs to no other object.
     */
    method RegisterInterface(i: SourceInterface)
      requires Valid()
      requires i.hash in interfaces ==> interfaces[i.hash] == i
      modifies this`interfaces, this`advancedInterfaces, this`order, i
      ensures Valid()
      ensures interfaces == old(interfaces)[i.hash := i]
      ensures order == if i.hash in old(interfaces) then old(order) else old(order) + [i.hash]
      ensures advancedInterfaces == if i.advanced then old(advancedInterfaces)[i.hash := i]
                                    else old(advancedInterfaces)
      ensures i.name == name
      ensures i.network == if i.advanced then this else old(i.network)
      ensures i.shutDown == old(i.shutDown)
    {
      var hash := i.hash;
      if hash !in interfaces {
        order := order + [hash];
      }
      interfaces := interfaces[hash := i];
      if i.advanced {
        advancedInterfaces := advancedInterfaces[hash := i];
        i.SetNetwork(this);
      }
      i.SetName(name);
    }

    /** Remove i's hash from both maps; every other entry stays. */
    method UnregisterInterface(i: SourceInterface)
      requires Valid()
      modifies this`interfaces, this`advancedInterfaces, this`order
      ensures Valid()
      ensures interfaces == old(interfaces) - {i.hash}
      ensures advancedInterfaces == old(advancedInterfaces) - {i.hash}
      ensures order == Without(old(order), i.hash)
    {
      var hash := i.hash;
      order := Without(order, hash);
      interfaces := interfaces - {hash};
      advancedInterfaces := advancedInterfaces - {hash};
    }

    /** `(string) $name` becomes the name, and every interface is told it. */
    method SetName(n: string)
      requires Valid()
      modifies this`name, interfaces.Values
      ensures name == Some(n)
      ensures forall h | h in interfaces :: interfaces[h].name == Some(n)
      ensures forall h | h in interfaces ::
        interfaces[h].network == old(interfaces[h].network) && interfaces[h].shutDown == old(interfaces[h].shutDown)
    {
      name := Some(n);
      UpdateName();
    }

    /** Tell every registered interface the current name. */
    method UpdateName()
      requires Valid()
      modifies interfaces.Values
      ensures forall h | h in interfaces :: interfaces[h].name == name
      ensures forall h | h in interfaces ::
        interfaces[h].network == old(interfaces[h].network) && interfaces[h].shutDown == old(interfaces[h].shutDown)
    {
      var keys := order;
      for k := 0 to |keys|
        invariant Valid() && keys == order
        invariant forall h | h in interfaces && h in keys[..k] :: interfaces[h].name == name
        invariant forall h | h in interfaces ::
          interfaces[h].network == old(interfaces[h].network) && interfaces[h].shutDown == old(interfaces[h].shutDown)
      {
        var h := keys[k];
        assert h in keys;
        interfaces[h].SetName(name);
        assert keys[..k + 1] == keys[..k] + [keys[k]];
      }
      assert keys[..|keys|] == keys;
    }

    /**
     * Run `process` on every interface; one that throws (is in `failing`)
     * is shut down and unregistered, the others stay registered.
     */
    method ProcessInterfaces(failing: set<SourceInterface>)
      requires Valid()
      modifies this`interfaces, this`advancedInterfaces, this`order, interfaces.Values
      ensures Valid()
      ensures interfaces == Surviving(old(interfaces), failing)
      ensures advancedInterfaces == Surviving(old(advancedInterfaces), failing)
      ensures forall h | h in old(interfaces) ::
        old(interfaces)[h].shutDown == (old(interfaces[h].shutDown) || old(interfaces)[h] in failing)
      ensures forall h | h in old(interfaces) ::
        old(interfaces)[h].name == old(interfaces[h].name) && old(interfaces)[h].network == old(interfaces[h].network)
    {
      var all, adv, keys := interfaces, advancedInterfaces, order;
      KeptNothing(all, failing);
      KeptNothing(adv, failing);
      ghost var was := map h | h in all :: all[h].shutDown;
      for k := 0 to |keys|
        invariant Valid() && Indexed(all, adv)
        invariant (forall h | h in keys :: h in all) && (forall h | h in all :: h in keys)
        invariant interfaces == Kept(all, keys[..k], failing)
        invariant advancedInterfaces == Kept(adv, keys[..k], failing)
        invariant ShutDownAsOf(all, was, keys[..k], failing)
        invariant forall h | h in all ::
          all[h].name == old(all[h].name) && all[h].network == old(all[h].network)
      {
        var h := keys[k];
        assert h in keys;
        ProcessOne(all, adv, was, keys[..k], all[h], failing);
        assert keys[..k + 1] == keys[..k] + [h];
      }
      assert keys[..|keys|] == keys;
      KeptAll(all, keys, failing);
      KeptAll(adv, keys, failing);
      forall h | h in all
        ensures all[h].shutDown == (old(all[h].shutDown) || all[h] in failing)
      {
        assert h in keys;
      }
    }

    /**
     * One pass of the loop in processInterfaces: the interface under hash h
     * is shut down and unregistered when its `process` throws.
     */
    method ProcessOne(all: map<int, SourceInterface>, adv: map<int, SourceInterface>, ghost was: map<int, bool>,
                      done: seq<int>, i: SourceInterface, failing: set<SourceInterface>)
      requires Valid() && Indexed(all, adv) && i.hash in all && all[i.hash] == i
      requires interfaces == Kept(all, done, failing) && advancedInterfaces == Kept(adv, done, failing)
      requires ShutDownAsOf(all, was, done, failing)
      modifies this`interfaces, this`advancedInterfaces, this`order, i`shutDown
      ensures Valid()
      ensures interfaces == Kept(all, done + [i.hash], failing)
      ensures advancedInterfaces == Kept(adv, done + [i.hash], failing)
      ensures i.shutDown == (old(i.shutDown) || i in failing)
      ensures ShutDownAsOf(all, was, done + [i.hash], failing)
    {
      var h := i.hash;
      KeptStep(all, done, h, failing);
      KeptStep(adv, done, h, failing);
      if i in failing {
        i.EmergencyShutdown();
        UnregisterInterface(i);
      }
    }

    /**
     * Split the decompressed payload of a BatchPacket and hand each packet
     * to the player. The packets handed over and the reason the loop ended
     * are exactly what Run describes for the registry.
     */
    method ProcessBatch(str: seq<Byte>, outcome: (Byte, seq<Byte>, int) -> Outcome)
      returns (dispatched: seq<Dispatch>, stop: Stop)
      requires packetPool.Length == 256
      requires HeadersNonNegative(str)
      ensures BatchRun(dispatched, stop) == Run(str, PoolKinds(), batchId, outcome)
    {
      var len := |str|;
      var offset := 0;
      dispatched := [];
      while offset < len
        invariant 0 <= offset
        invariant HeadersNonNegative(Remaining(str, offset))
        invariant var r := Run(Remaining(str, offset), PoolKinds(), batchId, outcome);
          Run(str, PoolKinds(), batchId, outcome) == BatchRun(dispatched + r.dispatched, r.stop)
        decreases len - offset
      {
        if len - offset < 4 {
          stop := Truncated;
          assert dispatched + [] == dispatched;
          return;
        }
        ghost var before, start := dispatched, offset;
        var handled, ended;
        offset, handled, ended := ProcessEntry(str, offset, outcome);
        dispatched := dispatched + handled;
        if ended.Some? {
          stop := ended.value;
          return;
        }
        ghost var r := Run(Remaining(str, offset), PoolKinds(), batchId, outcome);
        AppendAssoc(before, handled, r.dispatched);
      }
      stop := Exhausted;
      assert Remaining(str, offset) == [];
      assert dispatched + [] == dispatched;
    }

    /**
     * One pass of the loop in processBatch: read the length header at
     * offset, cut out the entry, and decode and handle it when its slot
     * holds a packet. Either the loop ends here with the packets handled so
     * far, or it goes on at the next offset.
     */
    method ProcessEntry(str: seq<Byte>, offset: nat, outcome: (Byte, seq<Byte>, int) -> Outcome)
      returns (next: nat, handled: seq<Dispatch>, stop: Option<Stop>)
      requires packetPool.Length == 256
      requires |str| - offset >= 4
      requires HeadersNonNegative(Remaining(str, offset))
      ensures stop.Some? ==> Run(Remaining(str, offset), PoolKinds(), batchId, outcome) == BatchRun(handled, stop.value)
      ensures stop.None? ==> next == offset + 4 + ReadInt(str[offset..offset + 4])
      ensures stop.None? ==> offset < next && HeadersNonNegative(Remaining(str, next))
      ensures stop.None? ==>
        var r := Run(Remaining(str, next), PoolKinds(), batchId, outcome);
        Run(Remaining(str, offset), PoolKinds(), batchId, outcome) == BatchRun(handled + r.dispatched, r.stop)
    {
      var pkLen := ReadInt(Substr(str, offset, 4));
      EntryAt(str, offset, pkLen, PoolKinds(), batchId, outcome);
      // $offset += 4, then the entry, then $offset += $pkLen
      var buf := Substr(str, offset + 4, pkLen);
      next := offset + 4 + pkLen;
      assert Remaining(str, next) == Remaining(str, offset + 4 + pkLen);
      handled, stop := [], None;
      if |buf| < 2 {
        stop := Some(Truncated);
        return;
      }
      var pk := GetPacket(buf[1]);
      if pk == null {
        assert handled + Run(Remaining(str, next), PoolKinds(), batchId, outcome).dispatched
          == Run(Remaining(str, next), PoolKinds(), batchId, outcome).dispatched;
        return;
      }
      if pk.networkId == batchId {
        stop := Some(NestedBatch);
        return;
      }
      pk.SetBuffer(buf, 2);
      var result := outcome(pk.networkId, pk.buffer, pk.offset);
      if result == DecodeFailed {
        stop := Some(DecodeError);
        return;
      }
      handled := [Dispatch(pk.networkId, pk.buffer, pk.offset)];
      if result == HandlerFailed {
        stop := Some(HandlerError);
      } else if result.offset <= 0 {
        stop := Some(NoProgress);
      }
    }
  }

  /** The bytes from offset on; nothing once the offset is past the end. */
  function Remaining(str: seq<Byte>, offset: nat): (r: seq<Byte>)
    ensures |r| == if offset <= |str| then |str| - offset else 0
  {
    if offset <= |str| then str[offset..] else []
  }

  /**
   * The offset after one pass of the loop as written, whatever the sign of
   * the header: `$offset += 4`, then `$offset += $pkLen`.
   */
  function RawAdvance(str: seq<Byte>, offset: nat): int
    requires |str| - offset >= 4
  {
    offset + 4 + ReadInt(Substr(str, offset, 4))
  }

  /**
   * A header of -4 brings the offset back to where the pass started, so the
   * loop as written sees the same state again and never ends. The payload is
   * one that HeadersNonNegative excludes.
   */
  lemma NegativeHeaderRewinds(id: Byte)
    ensures var w: seq<Byte> := [0xFF, 0xFF, 0xFF, 0xFC, 0, id, 0, 0, 0, 0];
      && ReadInt(w[..4]) == -4
      && RawAdvance(w, 0) == 0
      && Remaining(w, RawAdvance(w, 0)) == w
      && !HeadersNonNegative(w)
  {
    var w: seq<Byte> := [0xFF, 0xFF, 0xFF, 0xFC, 0, id, 0, 0, 0, 0];
    assert w[..4] == [0xFF, 0xFF, 0xFF, 0xFC];
    assert Substr(w, 0, 4) == w[..4];
  }

  /**
   * Reading the header at offset and skipping the entry is reading the
   * header of the remaining bytes and skipping the entry there.
   */
  lemma CursorStep(str: seq<Byte>, offset: nat, n: int)
    requires |str| - offset >= 4 && n == ReadInt(Substr(str, offset, 4))
    requires HeadersNonNegative(Remaining(str, offset))
    ensures var rest := Remaining(str, offset);
      && n == ReadInt(rest[..4])
      && n >= 0
      && Substr(str, offset + 4, n) == Substr(rest, 4, n)
      && Remaining(str, offset + 4 + n) == rest[Next(rest, n)..]
      && HeadersNonNegative(Remaining(str, offset + 4 + n))
  {
    var rest := Remaining(str, offset);
    assert rest == str[offset..];
    assert Substr(str, offset, 4) == rest[..4];
    assert n == ReadInt(rest[..4]);
    assert n >= 0;
    if offset + 4 + n <= |str| {
      assert Substr(str, offset + 4, n) == str[offset + 4..offset + 4 + n];
      SliceOfSuffix(str, offset, 4, 4 + n);
    } else {
      assert Substr(str, offset + 4, n) == str[offset + 4..];
      assert rest[4..] == str[offset + 4..];
    }
  }

  /**
   * What Run does with the entry at offset, in the terms the loop of
   * processBatch computes it: the header n, the entry buf and the bytes
   * after it.
   */
  lemma EntryAt(str: seq<Byte>, offset: nat, n: int, reg: Registry, batchId: Byte,
                outcome: (Byte, seq<Byte>, int) -> Outcome)
    requires |str| - offset >= 4 && n == ReadInt(Substr(str, offset, 4))
    requires HeadersNonNegative(Remaining(str, offset))
    ensures n >= 0 && HeadersNonNegative(Remaining(str, offset + 4 + n))
    ensures n >= 0 ==>
      var buf, after := Substr(str, offset + 4, n), Remaining(str, offset + 4 + n);
      var run := Run(Remaining(str, offset), reg, batchId, outcome);
      && (|buf| < 2 ==> run == BatchRun([], Truncated))
      && (|buf| >= 2 && buf[1] !in reg ==> run == Run(after, reg, batchId, outcome))
      && (|buf| >= 2 && buf[1] in reg && reg[buf[1]] == batchId ==> run == BatchRun([], NestedBatch))
      && (|buf| >= 2 && buf[1] in reg && reg[buf[1]] != batchId ==>
            var kind := reg[buf[1]];
            match outcome(kind, buf, DecodeFrom)
            case DecodeFailed => run == BatchRun([], DecodeError)
            case HandlerFailed => run == BatchRun([Dispatch(kind, buf, DecodeFrom)], HandlerError)
            case Handled(off) =>
              if off <= 0 then run == BatchRun([Dispatch(kind, buf, DecodeFrom)], NoProgress)
              else
                var tail := Run(after, reg, batchId, outcome);
                run == BatchRun([Dispatch(kind, buf, DecodeFrom)] + tail.dispatched, tail.stop))
  {
    CursorStep(str, offset, n);
    var rest := Remaining(str, offset);
    assert Substr(str, offset + 4, n) == Substr(rest, 4, n);
    assert Remaining(str, offset + 4 + n) == rest[Next(rest, n)..];
  }
}
