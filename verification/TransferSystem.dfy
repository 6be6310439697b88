/**
 Several streams over several paths: the streams of one sender, its framer with one queue for all lost frames,
 the packets on every path with the acks for them, and the streams of the receiver. Every byte, and every end
 of a stream, stays somewhere until it has arrived.
 */
module TransferSystem {
  import opened Wire
  import opened Wrappers
  import opened PacketHistory
  import opened PacketFlow
  import Framer = StreamFramer
  import Recv = ReceiveStream
  import Sort = StreamFrameSorter
  import N = StreamSystem
  import S = SentPackets
  import R = ReceivedPackets
  import A = AckSystem

  datatype PacketID = PacketID(path: nat, number: nat)

  // The queue of lost frames is not kept for every stream; there is one for all.
  datatype Transfer = Transfer(
    nets: map<nat, N.Net>,                     // both ends of every stream
    paths: map<nat, A.System>,                 // the packets and acks on every path
    queue: seq<StreamFrame>,                   // lost frames, waiting in the framer
    packing: seq<StreamFrame>,                 // frames taken for the next packet
    arriving: seq<StreamFrame>,                // frames received that are still to be handled
    carried: map<PacketID, seq<StreamFrame>>,  // the stream frames in every packet sent
    early: set<PacketID>,                      // packets sent before encryption was forward-secure
    handshakeComplete: bool,
    dropped: set<PacketID>)                    // early packets that are not sent again

  datatype Step =
    | OpenStream(id: nat)
    | OpenPath(path: nat)
    | Stream(id: nat, streamStep: N.Step)
    | Take(id: nat, frame: StreamFrame, space: nat, window: nat)
    | Pop(maxLen: nat, res: seq<StreamFrame>)
    | Send(path: nat, packet: Packet, askStop: Option<bool>, stopWaiting: Option<nat>, forwardSecure: bool)
    | Receive(path: nat, p: A.DataPacket, instigates: bool, alarm: int, r: R.ReceiveResult, mid: R.State)
    | Handle(result: Sort.PushResult)
    | Path(path: nat, pathStep: A.Step)
    | Requeue(path: nat)
    | Duplicate(path: nat, packet: Packet)
    | CompleteHandshake

  ghost predicate Init(t: Transfer) {
    t == Transfer(map[], map[], [], [], [], map[], {}, false, {})
  }

  ghost function NewNet(id: nat): N.Net {
    N.Net(Framer.SendState(id, None, 0, false, false), [], {}, Sort.INIT_STATE, 0, false, false, [], [], {}, false)
  }

  ghost function NewPath(): A.System {
    A.System(S.INIT_STATE, R.INIT_STATE, false, {}, {}, {}, 0, {})
  }

  // Frames that were cut for a packet count as sent.
  ghost function WithSent(nets: map<nat, N.Net>, fs: seq<StreamFrame>): map<nat, N.Net> {
    map id | id in nets :: nets[id].(sent := nets[id].sent + set f | f in fs && f.streamID == id)
  }

  // The application on either side.
  predicate IsApplication(step: N.Step) {
    step.Write? || step.Close? || step.Read?
  }

  // Acks, CLOSE_PATH frames and the alarm.
  predicate IsAckStep(step: A.Step) {
    step.SendAck? || step.DeliverAck? || step.SendClose? || step.DeliverClose? || step.Alarm?
  }

  ghost predicate StreamStep(t: Transfer, id: nat, step: N.Step, t': Transfer) {
    && id in t.nets && id in t'.nets && IsApplication(step) && N.NextStep(t.nets[id], step, t'.nets[id])
    && t' == t.(nets := t.nets[id := t'.nets[id]])
  }

  // New data of a stream.
  ghost predicate TakeStep(t: Transfer, id: nat, f: StreamFrame, space: nat, window: nat, t': Transfer) {
    && id in t.nets && id in t'.nets && N.NextStep(t.nets[id], N.Send(f, space, window), t'.nets[id])
    && t' == t.(nets := t.nets[id := t'.nets[id]], packing := t.packing + [f])
  }

  // Lost frames of any streams, from the one queue.
  ghost predicate PopStep(t: Transfer, maxLen: nat, res: seq<StreamFrame>, t': Transfer) {
    && Framer.PopSpec(t.queue, maxLen, res, Framer.WireLength(res), t'.queue)
    && t' == t.(nets := WithSent(t.nets, res), queue := t'.queue, packing := t.packing + res)
  }

  ghost predicate SendStep(t: Transfer, path: nat, packet: Packet, ask: Option<bool>, frame: Option<nat>,
                           forwardSecure: bool, t': Transfer) {
    && path in t.paths && path in t'.paths
    && A.NextStep(t.paths[path], A.Send(packet, ask, frame), t'.paths[path])
    && (t.packing != [] ==> Listed in packet.frames)
    && t' == t.(paths := t.paths[path := t'.paths[path]], packing := [],
                carried := t.carried[PacketID(path, packet.number) := t.packing],
                early := if forwardSecure then t.early else t.early + {PacketID(path, packet.number)})
  }

  // A packet is registered before its frames are handled.
  ghost predicate ReceiveStep(t: Transfer, path: nat, p: A.DataPacket, instigates: bool, alarm: int,
                              r: R.ReceiveResult, mid: R.State, t': Transfer) {
    && path in t.paths && path in t'.paths && PacketID(path, p.number) in t.carried
    && A.NextStep(t.paths[path], A.Deliver(p, instigates, alarm, r, mid), t'.paths[path])
    && t' == t.(paths := t.paths[path := t'.paths[path]],
                arriving := if r.Received? then t.arriving + t.carried[PacketID(path, p.number)] else t.arriving)
  }

  ghost predicate HandleStep(t: Transfer, r: Sort.PushResult, t': Transfer) {
    && t.arriving != []
    && var f := t.arriving[0];
       && f.streamID in t.nets && f.streamID in t'.nets
       && N.NextStep(t.nets[f.streamID], N.Deliver(f, r), t'.nets[f.streamID])
       && t' == t.(nets := t.nets[f.streamID := t'.nets[f.streamID]], arriving := t.arriving[1..])
  }

  // The first packet that waits for retransmission: its frames go back to the framer. One that was sent before
  // encryption was forward-secure is packed again as it is, and not at all once the handshake is complete.
  ghost predicate RequeueStep(t: Transfer, path: nat, t': Transfer) {
    && path in t.paths && path in t'.paths && t.paths[path].snd.queue != []
    && var waiting := t.paths[path].snd.queue;
       var key := PacketID(path, waiting[0].number);
       && key in t.carried
       && A.NextStep(t.paths[path], A.Requeue(waiting[1..]), t'.paths[path])
       && t' == t.(paths := t.paths[path := t'.paths[path]],
                   queue := if key in t.early then t.queue else t.queue + t.carried[key],
                   packing := if key in t.early && !t.handshakeComplete then t.packing + t.carried[key] else t.packing,
                   dropped := if key in t.early && t.handshakeComplete then t.dropped + {key} else t.dropped)
  }

  // A packet just sent is queued for another path.
  ghost predicate DuplicateStep(t: Transfer, path: nat, packet: Packet, t': Transfer) {
    && path in t.paths && path in t'.paths && packet in t.paths[path].snd.history
    && A.NextStep(t.paths[path], A.Requeue(t.paths[path].snd.queue + [packet]), t'.paths[path])
    && t' == t.(paths := t.paths[path := t'.paths[path]])
  }

  ghost predicate NextStep(t: Transfer, step: Step, t': Transfer) {
    match step
    case OpenStream(id) => id !in t.nets && t' == t.(nets := t.nets[id := NewNet(id)])
    case OpenPath(path) => path !in t.paths && t' == t.(paths := t.paths[path := NewPath()])
    case Stream(id, step) => StreamStep(t, id, step, t')
    case Take(id, f, space, window) => TakeStep(t, id, f, space, window, t')
    case Pop(maxLen, res) => PopStep(t, maxLen, res, t')
    case Send(path, packet, ask, frame, forwardSecure) => SendStep(t, path, packet, ask, frame, forwardSecure, t')
    case Receive(path, p, instigates, alarm, r, mid) => ReceiveStep(t, path, p, instigates, alarm, r, mid, t')
    case Handle(r) => HandleStep(t, r, t')
    case Path(path, step) =>
      && path in t.paths && path in t'.paths && IsAckStep(step) && A.NextStep(t.paths[path], step, t'.paths[path])
      && t' == t.(paths := t.paths[path := t'.paths[path]])
    case Requeue(path) => RequeueStep(t, path, t')
    case Duplicate(path, packet) => DuplicateStep(t, path, packet, t')
    case CompleteHandshake => t' == t.(handshakeComplete := true)
  }

  // ---------- where an item is ----------

  // What the application has written to a stream.
  ghost predicate Written(s: N.Net, item: Framer.Item) {
    match item
    case Byte(_, o, b) => o < |s.written| && s.written[o] == b
    case Fin(_, o) => s.send.finishedWriting && o == |s.written|
  }

  // In flight, or waiting for retransmission.
  ghost predicate Outstanding(t: Transfer, key: PacketID) {
    && key.path in t.paths
    && key.number in Numbers(t.paths[key.path].snd.history) + Numbers(t.paths[key.path].snd.queue)
  }

  ghost predicate CarriedBy(t: Transfer, key: PacketID, item: Framer.Item) {
    key in t.carried && item in Framer.AllItems(t.carried[key])
  }

  ghost predicate Arrived(s: N.Net, item: Framer.Item) {
    exists f :: f in s.delivered && item in Framer.FrameItems(f)
  }

  // With the sender, or with the receiver.
  ghost predicate AtEnds(t: Transfer, item: Framer.Item)
    requires item.streamID in t.nets
  {
    || item in Framer.PendingItems(t.nets[item.streamID].send)
    || item in Framer.AllItems(t.queue)
    || item in Framer.AllItems(t.packing)
    || item in Framer.AllItems(t.arriving)
    || Arrived(t.nets[item.streamID], item)
  }

  ghost predicate InPackets(t: Transfer, item: Framer.Item) {
    exists key :: Outstanding(t, key) && CarriedBy(t, key, item)
  }

  ghost predicate InDropped(t: Transfer, item: Framer.Item) {
    exists key :: key in t.dropped && CarriedBy(t, key, item)
  }

  ghost predicate Somewhere(t: Transfer, item: Framer.Item)
    requires item.streamID in t.nets
  {
    AtEnds(t, item) || InPackets(t, item) || InDropped(t, item)
  }

  // ---------- the invariant ----------

  ghost predicate NetsOk(t: Transfer) {
    forall id | id in t.nets :: NetOk(id, t.nets[id])
  }

  ghost predicate NetOk(id: nat, s: N.Net) {
    N.Inv(s) && s.send.streamID == id && (s.send.finSent ==> s.send.finishedWriting)
  }

  ghost predicate Fits(nets: map<nat, N.Net>, f: StreamFrame) {
    f.streamID in nets && N.FrameOk(nets[f.streamID], f)
  }

  ghost predicate AllFit(nets: map<nat, N.Net>, fs: seq<StreamFrame>) {
    forall f | f in fs :: Fits(nets, f)
  }

  ghost predicate AllSent(nets: map<nat, N.Net>, fs: seq<StreamFrame>) {
    forall f | f in fs :: f.streamID in nets && f in nets[f.streamID].sent
  }

  ghost predicate FramesOk(t: Transfer) {
    && AllFit(t.nets, t.queue)
    && AllSent(t.nets, t.packing) && AllSent(t.nets, t.arriving)
    && forall key | key in t.carried :: AllSent(t.nets, t.carried[key])
  }

  ghost predicate PathsOk(t: Transfer) {
    forall path | path in t.paths ::
      && A.Inv(t.paths[path])
      && (forall n | n in t.paths[path].snd.sent :: PacketID(path, n) in t.carried)
      && Numbers(t.paths[path].snd.queue) <= t.paths[path].snd.sent
  }

  ghost predicate KeysOk(t: Transfer) {
    forall key | key in t.carried :: key.path in t.paths && key.number in t.paths[key.path].snd.sent
  }

  // The frames of a packet received are handled, or about to be.
  ghost predicate ReceivedOk(t: Transfer) {
    forall key | key in t.carried && key.path in t.paths && !t.paths[key.path].failed
                 && key.number in t.paths[key.path].received ::
      AllHandled(t, t.carried[key])
  }

  ghost predicate AllHandled(t: Transfer, fs: seq<StreamFrame>) {
    forall f | f in fs :: f in t.arriving || (f.streamID in t.nets && f in t.nets[f.streamID].delivered)
  }

  // Some path has refused a packet, for having too many ranges.
  ghost predicate Refused(t: Transfer) {
    exists path :: path in t.paths && t.paths[path].failed
  }

  // If the item has been written, it is somewhere.
  ghost predicate Safe(t: Transfer, item: Framer.Item) {
    item.streamID in t.nets && Written(t.nets[item.streamID], item) ==> Somewhere(t, item)
  }

  ghost predicate Base(t: Transfer) {
    NetsOk(t) && FramesOk(t) && PathsOk(t) && KeysOk(t) && ReceivedOk(t)
  }

  ghost predicate Inv(t: Transfer) {
    Base(t) && (!Refused(t) ==> forall item :: Safe(t, item))
  }

  // ---------- frames and streams ----------

  lemma {:induction false} ItemOf(fs: seq<StreamFrame>, item: Framer.Item)
    ensures item in Framer.AllItems(fs) <==> exists f :: f in fs && item in Framer.FrameItems(f)
  {
    if fs != [] {
      ItemOf(fs[1..], item);
      assert forall f :: f in fs <==> f == fs[0] || f in fs[1..];
    }
  }

  lemma ItemsAppend(a: seq<StreamFrame>, b: seq<StreamFrame>, item: Framer.Item)
    ensures item in Framer.AllItems(a + b) <==> item in Framer.AllItems(a) || item in Framer.AllItems(b)
  {
    Framer.AllItemsConcat(a, b);
  }

  // The stream has grown, and what was sent or has arrived stays so.
  ghost predicate NetGrows(s: N.Net, s': N.Net) {
    N.Grows(s, s') && s.sent <= s'.sent && s.delivered <= s'.delivered
  }

  lemma NetStep(s: N.Net, step: N.Step, s': N.Net)
    requires N.Inv(s) && N.NextStep(s, step, s') && (s.send.finSent ==> s.send.finishedWriting)
    ensures N.Inv(s') && NetGrows(s, s') && (s'.send.finSent ==> s'.send.finishedWriting)
  {
    hide N.Inv, N.SenderInv, N.ReceiverInv, N.OutputInv, Sort.Pushed, Recv.ReadSpec, Framer.PopSpec;
    N.StepKeeps(s, step, s');
    SenderOf(s);
    SenderOf(s');
  }

  lemma SenderOf(s: N.Net)
    requires N.Inv(s)
    ensures forall f | f in s.sent :: N.FrameOk(s, f)
  {
  }

  lemma FitsGrows(nets: map<nat, N.Net>, id: nat, s': N.Net, fs: seq<StreamFrame>)
    requires id in nets && NetGrows(nets[id], s')
    ensures AllFit(nets, fs) ==> AllFit(nets[id := s'], fs)
    ensures AllSent(nets, fs) ==> AllSent(nets[id := s'], fs)
  {
    hide N.FrameOk, N.Grows;
    forall f | f in fs && f.streamID == id && Fits(nets, f) ensures N.FrameOk(s', f) {
      N.FrameOkGrows(nets[id], s', f);
    }
  }

  // ---------- the steps at the ends ----------

  // What was written before and is new, and what was with the stream, stays with it.
  lemma NetItems(s: N.Net, step: N.Step, s': N.Net, item: Framer.Item)
    requires N.Inv(s) && N.NextStep(s, step, s') && IsApplication(step)
    requires s.send.finSent ==> s.send.finishedWriting
    requires item.streamID == s.send.streamID
    ensures Written(s', item) && !Written(s, item) ==> item in Framer.PendingItems(s'.send)
    ensures item in Framer.PendingItems(s.send) ==> item in Framer.PendingItems(s'.send)
    ensures s'.delivered == s.delivered
  {
    hide N.ReceiverInv, N.OutputInv, Recv.ReadSpec, Sort.InGap, Recv.Ok;
    match step
    case Write(p) => WriteItems(s, p, s', item);
    case Close => CloseItems(s, s', item);
    case _ =>
  }

  lemma WriteFacts(s: N.Net, p: seq<byte>, s': N.Net)
    requires N.SenderInv(s) && N.NextStep(s, N.Write(p), s')
    ensures s.send.dataForWriting.None? && s.send.writeOffset == |s.written|
  {
    hide N.FrameOk, N.ItemsOk;
  }

  lemma WriteItems(s: N.Net, p: seq<byte>, s': N.Net, item: Framer.Item)
    requires N.SenderInv(s) && N.NextStep(s, N.Write(p), s') && item.streamID == s.send.streamID
    requires s.send.finSent ==> s.send.finishedWriting
    ensures Written(s', item) && !Written(s, item) ==> item in Framer.PendingItems(s'.send)
    ensures item in Framer.PendingItems(s.send) ==> item in Framer.PendingItems(s'.send)
  {
    hide N.SenderInv;
    WriteFacts(s, p, s');
    var items := Framer.PendingItems(s'.send);
    if Written(s', item) && !Written(s, item) {
      var i := item.offset - |s.written|;
      assert items[i] == item;
    }
  }

  lemma CloseItems(s: N.Net, s': N.Net, item: Framer.Item)
    requires N.SenderInv(s) && N.NextStep(s, N.Close, s') && item.streamID == s.send.streamID
    requires s.send.finSent ==> s.send.finishedWriting
    ensures Written(s', item) && !Written(s, item) ==> item in Framer.PendingItems(s'.send)
    ensures item in Framer.PendingItems(s.send) ==> item in Framer.PendingItems(s'.send)
  {
    var items, items' := Framer.PendingItems(s.send), Framer.PendingItems(s'.send);
    assert forall i | 0 <= i < |items| :: items'[i] == items[i];
    if Written(s', item) && !Written(s, item) {
      assert items'[N.Pending(s.send)] == item;
    }
  }

  // One stream has taken a step; the packets are where they were.
  lemma NetChanges(t: Transfer, id: nat, t': Transfer)
    requires NetsOk(t) && FramesOk(t) && PathsOk(t) && KeysOk(t) && ReceivedOk(t)
    requires id in t.nets && id in t'.nets && NetGrows(t.nets[id], t'.nets[id]) && NetOk(id, t'.nets[id])
    requires t' == t.(nets := t.nets[id := t'.nets[id]], packing := t'.packing, arriving := t'.arriving)
    requires AllSent(t'.nets, t'.packing) && AllSent(t'.nets, t'.arriving)
    requires forall f | f in t.arriving && f !in t'.arriving :: f.streamID == id && f in t'.nets[id].delivered
    ensures NetsOk(t') && FramesOk(t') && PathsOk(t') && KeysOk(t') && ReceivedOk(t')
  {
    hide NetOk, Fits, AllSent, AllFit, N.Grows, A.Inv, Numbers;
    FitsGrows(t.nets, id, t'.nets[id], t.queue);
    forall key | key in t.carried ensures AllSent(t'.nets, t.carried[key]) {
      FitsGrows(t.nets, id, t'.nets[id], t.carried[key]);
    }
  }

  lemma StreamKeeps(t: Transfer, id: nat, step: N.Step, t': Transfer)
    requires Base(t) && StreamStep(t, id, step, t')
    ensures Base(t')
  {
    hide AllSent, PathsOk, KeysOk, ReceivedOk, Somewhere, Refused, N.Inv, N.NextStep, NetGrows;
    var s, s' := t.nets[id], t'.nets[id];
    NetStep(s, step, s');
    SameID(s, step, s');
    FitsGrows(t.nets, id, s', t.packing);
    FitsGrows(t.nets, id, s', t.arriving);
    NetChanges(t, id, t');
  }

  lemma SameID(s: N.Net, step: N.Step, s': N.Net)
    requires N.NextStep(s, step, s')
    ensures s'.send.streamID == s.send.streamID
  {
    hide Sort.Pushed, Recv.ReadSpec, Framer.PopSpec, Recv.Ok;
  }

  lemma SamePackets(t: Transfer, t': Transfer, item: Framer.Item)
    requires t'.paths == t.paths && t'.carried == t.carried && t'.dropped == t.dropped
    ensures InPackets(t, item) ==> InPackets(t', item)
    ensures InDropped(t, item) ==> InDropped(t', item)
  {
    if InPackets(t, item) {
      var key :| Outstanding(t, key) && CarriedBy(t, key, item);
      assert Outstanding(t', key) && CarriedBy(t', key, item);
    }
    if InDropped(t, item) {
      var key :| key in t.dropped && CarriedBy(t, key, item);
      assert CarriedBy(t', key, item);
    }
  }

  lemma StreamItem(t: Transfer, id: nat, step: N.Step, t': Transfer, item: Framer.Item)
    requires Base(t) && StreamStep(t, id, step, t') && Safe(t, item)
    ensures Safe(t', item)
  {
    hide N.Inv, N.NextStep, InPackets, InDropped;
    SamePackets(t, t', item);
    if item.streamID == id {
      NetItems(t.nets[id], step, t'.nets[id], item);
    }
  }

  lemma TakeKeeps(t: Transfer, id: nat, f: StreamFrame, space: nat, window: nat, t': Transfer)
    requires Base(t) && TakeStep(t, id, f, space, window, t')
    ensures Base(t')
  {
    hide AllSent, PathsOk, KeysOk, ReceivedOk, Somewhere, Refused, N.Inv, N.NextStep, NetGrows;
    var s, s' := t.nets[id], t'.nets[id];
    NetStep(s, N.Send(f, space, window), s');
    SameID(s, N.Send(f, space, window), s');
    TakenSent(s, f, space, window, s');
    FitsGrows(t.nets, id, s', t.packing);
    FitsGrows(t.nets, id, s', t.arriving);
    OneMoreSent(t'.nets, t.packing, f);
    NetChanges(t, id, t');
  }

  lemma TakenSent(s: N.Net, f: StreamFrame, space: nat, window: nat, s': N.Net)
    requires N.NextStep(s, N.Send(f, space, window), s')
    ensures f in s'.sent && f.streamID == s.send.streamID && s'.delivered == s.delivered
    ensures Framer.PendingItems(s.send) == Framer.FrameItems(f) + Framer.PendingItems(s'.send)
    ensures s'.written == s.written && s'.send.finishedWriting == s.send.finishedWriting
  {
  }

  lemma OneMoreSent(nets: map<nat, N.Net>, fs: seq<StreamFrame>, f: StreamFrame)
    requires AllSent(nets, fs) && f.streamID in nets && f in nets[f.streamID].sent
    ensures AllSent(nets, fs + [f])
  {
  }

  lemma TakeItem(t: Transfer, id: nat, f: StreamFrame, space: nat, window: nat, t': Transfer, item: Framer.Item)
    requires Base(t) && TakeStep(t, id, f, space, window, t') && Safe(t, item)
    ensures Safe(t', item)
  {
    hide N.Inv, N.NextStep, InPackets, InDropped, Framer.PendingItems;
    SamePackets(t, t', item);
    TakenSent(t.nets[id], f, space, window, t'.nets[id]);
    ItemsAppend(t.packing, [f], item);
    OneFrame(f);
  }

  lemma OneFrame(f: StreamFrame)
    ensures Framer.AllItems([f]) == Framer.FrameItems(f)
  {
    assert [f][1..] == [];
  }

  lemma HandleKeeps(t: Transfer, r: Sort.PushResult, t': Transfer)
    requires Base(t) && HandleStep(t, r, t')
    ensures Base(t')
  {
    hide PathsOk, KeysOk, ReceivedOk, Somewhere, Refused, N.Inv, N.NextStep, NetGrows;
    var f := t.arriving[0];
    var s, s' := t.nets[f.streamID], t'.nets[f.streamID];
    NetStep(s, N.Deliver(f, r), s');
    SameID(s, N.Deliver(f, r), s');
    HandledArrived(s, f, r, s');
    FitsGrows(t.nets, f.streamID, s', t.packing);
    FitsGrows(t.nets, f.streamID, s', t.arriving);
    assert forall g | g in t.arriving :: g == f || g in t.arriving[1..];
    NetChanges(t, f.streamID, t');
  }

  lemma HandledArrived(s: N.Net, f: StreamFrame, r: Sort.PushResult, s': N.Net)
    requires N.NextStep(s, N.Deliver(f, r), s')
    ensures s'.delivered == s.delivered + {f} && s'.send == s.send && s'.written == s.written
  {
  }

  lemma HandleItem(t: Transfer, r: Sort.PushResult, t': Transfer, item: Framer.Item)
    requires Base(t) && HandleStep(t, r, t') && Safe(t, item)
    ensures Safe(t', item)
  {
    hide N.Inv, N.NextStep, InPackets, InDropped, Framer.PendingItems;
    var f := t.arriving[0];
    SamePackets(t, t', item);
    HandledArrived(t.nets[f.streamID], f, r, t'.nets[f.streamID]);
    if item in Framer.FrameItems(f) {
      ItemStream(f, item);
    }
  }

  lemma ItemStream(f: StreamFrame, item: Framer.Item)
    requires item in Framer.FrameItems(f)
    ensures item.streamID == f.streamID
  {
  }

  // ---------- lost frames are cut again ----------

  // A frame made of items of frames that fit fits.
  lemma CutFits(nets: map<nat, N.Net>, queue: seq<StreamFrame>, f: StreamFrame)
    requires AllFit(nets, queue) && (f.DataLen() > 0 || f.finBit)
    requires forall item | item in Framer.FrameItems(f) :: item in Framer.AllItems(queue)
    ensures Fits(nets, f)
  {
    hide N.FrameOk, Framer.AllItems;
    var items := Framer.FrameItems(f);
    forall i | 0 <= i < |items| ensures f.streamID in nets && N.ItemOk(nets[f.streamID], items[i]) {
      ItemFits(nets, queue, items[i]);
      ItemStream(f, items[i]);
    }
    assert items[0] in items;
    N.FrameItemsOk(nets[f.streamID], f);
  }

  lemma ItemFits(nets: map<nat, N.Net>, queue: seq<StreamFrame>, item: Framer.Item)
    requires AllFit(nets, queue) && item in Framer.AllItems(queue)
    ensures item.streamID in nets && N.ItemOk(nets[item.streamID], item)
  {
    ItemOf(queue, item);
    var g :| g in queue && item in Framer.FrameItems(g);
    ItemStream(g, item);
    assert Fits(nets, g);
    N.FrameOkItems(nets[g.streamID], g);
  }

  lemma PoppedFit(nets: map<nat, N.Net>, queue: seq<StreamFrame>, maxLen: nat, res: seq<StreamFrame>,
                  queue': seq<StreamFrame>)
    requires AllFit(nets, queue) && Framer.PopSpec(queue, maxLen, res, Framer.WireLength(res), queue')
    ensures AllFit(nets, res) && AllFit(nets, queue')
    ensures forall item: Framer.Item :: item in Framer.AllItems(queue) <==>
              item in Framer.AllItems(res) || item in Framer.AllItems(queue')
  {
    hide Fits, Framer.WireLength, Framer.AllItems, Framer.FrameItems;
    FitWritable(nets, queue);
    forall f | f in res || f in queue' ensures Fits(nets, f) {
      forall item | item in Framer.FrameItems(f) ensures item in Framer.AllItems(queue) {
        ItemOf(res, item);
        ItemOf(queue', item);
      }
      CutFits(nets, queue, f);
    }
  }

  lemma FitWritable(nets: map<nat, N.Net>, fs: seq<StreamFrame>)
    requires AllFit(nets, fs)
    ensures Framer.Writable(fs)
  {
    forall f | f in fs ensures f.DataLen() > 0 || f.finBit {
      assert Fits(nets, f);
    }
  }

  // Counting good frames as sent.
  lemma SentMore(s: N.Net, fs: set<StreamFrame>)
    requires N.Inv(s) && forall f | f in fs :: N.FrameOk(s, f)
    ensures N.Inv(s.(sent := s.sent + fs)) && NetGrows(s, s.(sent := s.sent + fs))
  {
    hide Recv.Ok, Sort.InGap, N.ItemOk;
    var s' := s.(sent := s.sent + fs);
    forall f ensures N.FrameOk(s, f) <==> N.FrameOk(s', f) {
    }
    forall f ensures N.QueuedOk(s, f) <==> N.QueuedOk(s', f) {
    }
    N.ItemsOkGrows(s, s', Framer.PendingItems(s.send));
  }

  lemma WithSentOk(t: Transfer, res: seq<StreamFrame>)
    requires NetsOk(t) && AllFit(t.nets, res)
    ensures var nets := WithSent(t.nets, res);
            && nets.Keys == t.nets.Keys && AllSent(nets, res)
            && forall id | id in nets :: NetOk(id, nets[id]) && NetGrows(t.nets[id], nets[id])
                                         && nets[id] == t.nets[id].(sent := nets[id].sent)
  {
    hide N.Inv, NetGrows, N.FrameOk;
    var nets := WithSent(t.nets, res);
    forall id | id in nets
      ensures NetOk(id, nets[id]) && NetGrows(t.nets[id], nets[id])
    {
      forall f | f in res && f.streamID == id ensures N.FrameOk(t.nets[id], f) {
        assert Fits(t.nets, f);
      }
      SentMore(t.nets[id], set f | f in res && f.streamID == id);
    }
    forall f | f in res ensures f.streamID in nets && f in nets[f.streamID].sent {
      assert Fits(t.nets, f);
    }
  }

  // All streams have grown.
  lemma AllGrow(nets: map<nat, N.Net>, nets': map<nat, N.Net>, fs: seq<StreamFrame>)
    requires nets'.Keys == nets.Keys && forall id | id in nets :: NetGrows(nets[id], nets'[id])
    ensures AllFit(nets, fs) ==> AllFit(nets', fs)
    ensures AllSent(nets, fs) ==> AllSent(nets', fs)
  {
    hide N.FrameOk, N.Grows;
    forall f | f in fs && Fits(nets, f) ensures Fits(nets', f) {
      N.FrameOkGrows(nets[f.streamID], nets'[f.streamID], f);
    }
  }

  lemma PopKeeps(t: Transfer, maxLen: nat, res: seq<StreamFrame>, t': Transfer)
    requires Base(t) && PopStep(t, maxLen, res, t')
    ensures Base(t')
  {
    hide NetOk, Fits, AllFit, AllSent, N.Inv, NetGrows, WithSent, Framer.PopSpec, A.Inv, Numbers, Somewhere, Written;
    PoppedFit(t.nets, t.queue, maxLen, res, t'.queue);
    WithSentOk(t, res);
    AllGrow(t.nets, t'.nets, t.packing);
    AllGrow(t.nets, t'.nets, t'.queue);
    AllGrow(t.nets, t'.nets, t.arriving);
    SentConcat(t'.nets, t.packing, res);
    forall key | key in t.carried ensures AllSent(t'.nets, t.carried[key]) {
      AllGrow(t.nets, t'.nets, t.carried[key]);
    }
    PopReceived(t, res, t');
  }

  lemma SentConcat(nets: map<nat, N.Net>, a: seq<StreamFrame>, b: seq<StreamFrame>)
    requires AllSent(nets, a) && AllSent(nets, b)
    ensures AllSent(nets, a + b)
  {
  }

  lemma PopReceived(t: Transfer, res: seq<StreamFrame>, t': Transfer)
    requires ReceivedOk(t) && t' == t.(nets := t'.nets, queue := t'.queue, packing := t'.packing)
    requires t'.nets.Keys == t.nets.Keys
             && forall id | id in t.nets :: t'.nets[id] == t.nets[id].(sent := t'.nets[id].sent)
    ensures ReceivedOk(t')
  {
  }

  lemma PopItem(t: Transfer, maxLen: nat, res: seq<StreamFrame>, t': Transfer, item: Framer.Item)
    requires Base(t) && PopStep(t, maxLen, res, t') && Safe(t, item)
    ensures Safe(t', item)
  {
    hide Framer.AllItems, Framer.PendingItems, InPackets, InDropped, NetsOk, Fits, PathsOk, KeysOk, ReceivedOk,
         Framer.PopSpec;
    PoppedFit(t.nets, t.queue, maxLen, res, t'.queue);
    SamePackets(t, t', item);
    ItemsAppend(t.packing, res, item);
  }

  // ---------- packets ----------

  // One path has taken a step; the streams are where they were.
  ghost predicate PathChanges(t: Transfer, path: nat, t': Transfer) {
    && path in t.paths && path in t'.paths && A.Inv(t'.paths[path])
    && t'.nets == t.nets && t'.paths == t.paths[path := t'.paths[path]] && t'.carried == t.carried
    && t'.paths[path].snd.sent == t.paths[path].snd.sent
    && Numbers(t'.paths[path].snd.queue) <= Numbers(t.paths[path].snd.queue) + t.paths[path].snd.sent
    && (t.paths[path].failed ==> t'.paths[path].failed)
  }

  lemma PathKeeps(t: Transfer, path: nat, t': Transfer)
    requires PathsOk(t) && KeysOk(t) && PathChanges(t, path, t')
    ensures PathsOk(t') && KeysOk(t')
  {
    hide A.Inv, Numbers;
  }

  // The packets that are neither in flight nor waiting any more have been received.
  ghost predicate PacketsFlow(s: A.System, s': A.System) {
    Numbers(s.snd.history) + Numbers(s.snd.queue) <= Numbers(s'.snd.history) + Numbers(s'.snd.queue) + s'.received
  }

  lemma AckStepFlows(s: A.System, step: A.Step, s': A.System)
    requires A.Inv(s) && IsAckStep(step) && A.NextStep(s, step, s')
    ensures A.Inv(s') && PacketsFlow(s, s') && s'.snd.sent == s.snd.sent && s'.received == s.received
    ensures s'.failed == s.failed && Numbers(s'.snd.queue) <= Numbers(s.snd.queue) + s.snd.sent
  {
    hide Numbers, Flows, S.Inv, R.Inv, R.Contains, A.Inv, S.AckSpec, S.ClosePathSpec, S.AfterAlarm;
    A.StepKeeps(s, step, s');
    match step {
      case DeliverAck(a, now, delay, r) => AckFlows(s.snd, a.ack, a.number, now, delay, r, s'.snd);
      case DeliverClose(f, number, r) => CloseFlows(s.snd, f, number, r, s'.snd);
      case Alarm(now, delay, failed) => AlarmFlows(s.snd, now, delay, failed);
      case _ =>
    }
    InvFacts(s);
    InvFacts(s');
    FlowFacts(s.snd, s'.snd);
  }

  lemma FlowFacts(st: S.State, st': S.State)
    requires Flows(st, st') || st' == st
    ensures Numbers(st.history) + Numbers(st.queue) <= Numbers(st'.history) + st'.acked + Numbers(st'.queue)
    ensures Numbers(st'.queue) <= Numbers(st.queue) + Numbers(st.history) && st'.sent == st.sent
  {
  }

  lemma InvFacts(s: A.System)
    requires A.Inv(s)
    ensures s.snd.acked <= s.received && Numbers(s.snd.history) <= s.snd.sent
    ensures forall n | n in s.snd.sent :: n <= s.snd.lastSent
    ensures s.received <= s.snd.sent
    ensures forall p | p in s.packets :: p.number in s.snd.sent
  {
    hide R.Inv, R.Contains;
  }

  // Acks, CLOSE_PATH frames and the alarm lose nothing.
  lemma AckKeeps(t: Transfer, path: nat, step: A.Step, t': Transfer)
    requires Base(t) && NextStep(t, Path(path, step), t')
    ensures Base(t') && PathChanges(t, path, t') && PacketsFlow(t.paths[path], t'.paths[path])
    ensures t' == t.(paths := t'.paths)
  {
    hide A.Inv, A.NextStep, Numbers, NetOk, Fits, AllSent, PacketsFlow;
    var s, s' := t.paths[path], t'.paths[path];
    AckStepFlows(s, step, s');
    assert PathChanges(t, path, t');
    PathKeeps(t, path, t');
    ReceivedAgain(t, path, t');
  }

  lemma AckItem(t: Transfer, path: nat, step: A.Step, t': Transfer, item: Framer.Item)
    requires Base(t) && NextStep(t, Path(path, step), t') && !Refused(t') && Safe(t, item)
    ensures Safe(t', item)
  {
    hide NextStep, Base, A.Inv, Numbers, PacketsFlow, Written, Somewhere;
    AckKeeps(t, path, step, t');
    BaseParts(t);
    BaseParts(t');
    NotRefused(t', path);
    if item.streamID in t.nets && Written(t.nets[item.streamID], item) {
      FlowItem(t, path, t', item);
    }
  }

  lemma BaseParts(t: Transfer)
    requires Base(t)
    ensures KeysOk(t) && ReceivedOk(t)
  {
  }

  lemma NotRefused(t: Transfer, path: nat)
    requires !Refused(t)
    ensures path in t.paths ==> !t.paths[path].failed
  {
  }

  lemma ReceivedAgain(t: Transfer, path: nat, t': Transfer)
    requires ReceivedOk(t) && path in t.paths && path in t'.paths && t'.paths == t.paths[path := t'.paths[path]]
    requires t'.nets == t.nets && t'.carried == t.carried && t'.arriving == t.arriving
    requires t'.paths[path].received == t.paths[path].received && t'.paths[path].failed == t.paths[path].failed
    ensures ReceivedOk(t')
  {
    forall key | key in t'.carried && key.path in t'.paths && !t'.paths[key.path].failed
                 && key.number in t'.paths[key.path].received
      ensures AllHandled(t', t'.carried[key])
    {
      assert AllHandled(t, t.carried[key]);
    }
  }

  // An item in a packet that leaves the flight has arrived, or waits in the packet for retransmission.
  lemma FlowItem(t: Transfer, path: nat, t': Transfer, item: Framer.Item)
    requires KeysOk(t) && Accounted(t, item) && PathChanges(t, path, t') && t'.nets == t.nets
    requires PacketsFlow(t.paths[path], t'.paths[path]) && t'.arriving == t.arriving
    requires t'.queue == t.queue && t'.packing == t.packing && t.dropped <= t'.dropped
    requires ReceivedOk(t') && !t'.paths[path].failed
    ensures Accounted(t', item)
  {
    hide A.Inv, Numbers;
    if InPackets(t, item) {
      var key :| Outstanding(t, key) && CarriedBy(t, key, item);
      if Outstanding(t', key) {
        assert CarriedBy(t', key, item);
      } else {
        ReceivedItem(t', key, item);
      }
    } else if InDropped(t, item) {
      var key :| key in t.dropped && CarriedBy(t, key, item);
      assert CarriedBy(t', key, item);
    }
  }

  ghost predicate Accounted(t: Transfer, item: Framer.Item) {
    item.streamID in t.nets && Somewhere(t, item)
  }

  lemma ReceivedItem(t: Transfer, key: PacketID, item: Framer.Item)
    requires ReceivedOk(t) && CarriedBy(t, key, item) && item.streamID in t.nets
    requires key.path in t.paths && !t.paths[key.path].failed && key.number in t.paths[key.path].received
    ensures item in Framer.AllItems(t.arriving) || Arrived(t.nets[item.streamID], item)
  {
    ItemOf(t.carried[key], item);
    var f :| f in t.carried[key] && item in Framer.FrameItems(f);
    assert AllHandled(t, t.carried[key]);
    ItemStream(f, item);
    ItemOf(t.arriving, item);
  }

  lemma ReceiveFacts(s: A.System, p: A.DataPacket, instigates: bool, alarm: int, r: R.ReceiveResult, mid: R.State,
                     s': A.System)
    requires A.Inv(s) && A.NextStep(s, A.Deliver(p, instigates, alarm, r, mid), s')
    ensures A.Inv(s') && s'.snd == s.snd && s'.received == s.received + {p.number}
    ensures !s.failed && s'.failed == !r.Received?
  {
    hide A.Inv, R.Inv, R.Contains, R.ReceiveSpec;
    A.StepKeeps(s, A.Deliver(p, instigates, alarm, r, mid), s');
  }

  // A packet is received: its frames are to be handled.
  lemma ReceiveKeeps(t: Transfer, path: nat, p: A.DataPacket, instigates: bool, alarm: int, r: R.ReceiveResult,
                     mid: R.State, t': Transfer)
    requires Base(t) && ReceiveStep(t, path, p, instigates, alarm, r, mid, t')
    ensures Base(t')
  {
    hide A.Inv, A.NextStep, Numbers, NetOk, Fits;
    var fs := t.carried[PacketID(path, p.number)];
    ReceiveFacts(t.paths[path], p, instigates, alarm, r, mid, t'.paths[path]);
    PathKeeps(t, path, t');
    SentConcat(t.nets, t.arriving, fs);
    forall key | key in t'.carried && key.path in t'.paths && !t'.paths[key.path].failed
                 && key.number in t'.paths[key.path].received
      ensures AllHandled(t', t'.carried[key])
    {
      assert key != PacketID(path, p.number) ==> AllHandled(t, t.carried[key]);
    }
  }

  lemma ReceiveItem(t: Transfer, path: nat, p: A.DataPacket, instigates: bool, alarm: int, r: R.ReceiveResult,
                    mid: R.State, t': Transfer, item: Framer.Item)
    requires Base(t) && ReceiveStep(t, path, p, instigates, alarm, r, mid, t') && Safe(t, item)
    ensures Safe(t', item)
  {
    hide A.Inv, A.NextStep, Numbers, NetsOk, FramesOk, KeysOk, ReceivedOk, Somewhere, Written, InPackets, InDropped;
    ReceiveFacts(t.paths[path], p, instigates, alarm, r, mid, t'.paths[path]);
    ItemsAppend(t.arriving, t.carried[PacketID(path, p.number)], item);
    SameOutstanding(t, path, t', item);
    if Accounted(t, item) {
      MoreHands(t, t', item);
    }
  }

  lemma SameOutstanding(t: Transfer, path: nat, t': Transfer, item: Framer.Item)
    requires path in t.paths && path in t'.paths && t'.paths == t.paths[path := t'.paths[path]]
    requires t'.carried == t.carried && t.dropped <= t'.dropped
    requires Numbers(t.paths[path].snd.history) + Numbers(t.paths[path].snd.queue)
             <= Numbers(t'.paths[path].snd.history) + Numbers(t'.paths[path].snd.queue)
    ensures InPackets(t, item) ==> InPackets(t', item)
    ensures InDropped(t, item) ==> InDropped(t', item)
  {
    hide Numbers;
    if InPackets(t, item) {
      var key :| Outstanding(t, key) && CarriedBy(t, key, item);
      assert Outstanding(t', key) && CarriedBy(t', key, item);
    }
    if InDropped(t, item) {
      var key :| key in t.dropped && CarriedBy(t, key, item);
      assert CarriedBy(t', key, item);
    }
  }

  // Nothing is taken away at the ends.
  lemma MoreHands(t: Transfer, t': Transfer, item: Framer.Item)
    requires Accounted(t, item) && t'.nets == t.nets
    requires item in Framer.AllItems(t.queue) ==> item in Framer.AllItems(t'.queue)
    requires item in Framer.AllItems(t.packing) ==> item in Framer.AllItems(t'.packing) || InPackets(t', item)
    requires item in Framer.AllItems(t.arriving) ==> item in Framer.AllItems(t'.arriving)
    requires InPackets(t, item) ==> InPackets(t', item) || Somewhere(t', item)
    requires InDropped(t, item) ==> InDropped(t', item)
    ensures Somewhere(t', item)
  {
    hide InPackets, InDropped, Arrived, Framer.AllItems, Framer.PendingItems;
  }

  lemma SendFacts(s: A.System, packet: Packet, ask: Option<bool>, frame: Option<nat>, s': A.System)
    requires A.Inv(s) && A.NextStep(s, A.Send(packet, ask, frame), s')
    ensures A.Inv(s') && s'.received == s.received && s'.failed == s.failed && packet.number !in s.snd.sent
    ensures s'.snd.sent == s.snd.sent + {packet.number} && s'.snd.queue == s.snd.queue
    ensures Numbers(s.snd.history) <= Numbers(s'.snd.history)
    ensures Listed in packet.frames ==> packet.number in Numbers(s'.snd.history)
  {
    hide A.Inv, S.AfterSend, A.StopStep, Numbers;
    A.StepKeeps(s, A.Send(packet, ask, frame), s');
    SentFlows(s.snd.(stop := s'.snd.stop), packet);
    InvFacts(s);
  }

  // The frames taken go out in a packet that is in flight then.
  lemma SendKeeps(t: Transfer, path: nat, packet: Packet, ask: Option<bool>, frame: Option<nat>, forwardSecure: bool,
                  t': Transfer)
    requires Base(t) && SendStep(t, path, packet, ask, frame, forwardSecure, t')
    ensures Base(t')
  {
    hide A.Inv, A.NextStep, Numbers, NetsOk, FramesOk, PathsOk, KeysOk, ReceivedOk;
    PathInv(t, path);
    SendFacts(t.paths[path], packet, ask, frame, t'.paths[path]);
    FreshKey(t, path, packet.number);
    SentFrames(t, path, packet.number, t');
    SentPathsOk(t, path, packet.number, t');
    SentReceived(t, path, packet.number, t');
  }

  lemma SendItem(t: Transfer, path: nat, packet: Packet, ask: Option<bool>, frame: Option<nat>, forwardSecure: bool,
                 t': Transfer, item: Framer.Item)
    requires Base(t) && SendStep(t, path, packet, ask, frame, forwardSecure, t') && Safe(t, item)
    ensures Safe(t', item)
  {
    hide A.Inv, A.NextStep, Numbers, NetsOk, FramesOk, PathsOk, KeysOk, ReceivedOk, Somewhere, Written, InPackets,
         InDropped;
    PathInv(t, path);
    SendFacts(t.paths[path], packet, ask, frame, t'.paths[path]);
    FreshKey(t, path, packet.number);
    SentItem(t, path, packet.number, t', item, Listed in packet.frames);
    if Accounted(t, item) {
      MoreHands(t, t', item);
    }
  }

  lemma PathInv(t: Transfer, path: nat)
    requires PathsOk(t) && path in t.paths
    ensures A.Inv(t.paths[path])
  {
  }

  lemma FreshKey(t: Transfer, path: nat, number: nat)
    requires KeysOk(t) && path in t.paths && number !in t.paths[path].snd.sent
    ensures PacketID(path, number) !in t.carried
  {
  }

  lemma SentFrames(t: Transfer, path: nat, number: nat, t': Transfer)
    requires NetsOk(t) && FramesOk(t) && t'.nets == t.nets && t'.queue == t.queue && t'.arriving == t.arriving
    requires t'.packing == [] && t'.carried == t.carried[PacketID(path, number) := t.packing]
    ensures NetsOk(t') && FramesOk(t')
  {
    hide NetOk, Fits;
  }

  lemma SentPathsOk(t: Transfer, path: nat, number: nat, t': Transfer)
    requires PathsOk(t) && KeysOk(t) && path in t.paths && path in t'.paths && A.Inv(t'.paths[path])
    requires t'.paths == t.paths[path := t'.paths[path]] && t'.carried == t.carried[PacketID(path, number) := t.packing]
    requires t'.paths[path].snd.sent == t.paths[path].snd.sent + {number}
    requires t'.paths[path].snd.queue == t.paths[path].snd.queue
    ensures PathsOk(t') && KeysOk(t')
  {
    hide A.Inv, Numbers;
  }

  lemma SentReceived(t: Transfer, path: nat, number: nat, t': Transfer)
    requires ReceivedOk(t) && path in t.paths && path in t'.paths && A.Inv(t.paths[path])
    requires number !in t.paths[path].snd.sent && t'.nets == t.nets && t'.arriving == t.arriving
    requires t'.paths == t.paths[path := t'.paths[path]] && t'.carried == t.carried[PacketID(path, number) := t.packing]
    requires t'.paths[path].received == t.paths[path].received && t'.paths[path].failed == t.paths[path].failed
    ensures ReceivedOk(t')
  {
    hide A.Inv;
    InvFacts(t.paths[path]);
    forall key | key in t'.carried && key.path in t'.paths && !t'.paths[key.path].failed
                 && key.number in t'.paths[key.path].received
      ensures AllHandled(t', t'.carried[key])
    {
      assert AllHandled(t, t.carried[key]);
    }
  }

  lemma SentItem(t: Transfer, path: nat, number: nat, t': Transfer, item: Framer.Item, listed: bool)
    requires path in t.paths && path in t'.paths && t'.paths == t.paths[path := t'.paths[path]]
    requires PacketID(path, number) !in t.carried && t'.carried == t.carried[PacketID(path, number) := t.packing]
    requires Numbers(t.paths[path].snd.history) <= Numbers(t'.paths[path].snd.history)
    requires t'.paths[path].snd.queue == t.paths[path].snd.queue && t'.dropped == t.dropped
    requires (t.packing != [] ==> listed) && (listed ==> number in Numbers(t'.paths[path].snd.history))
    ensures InPackets(t, item) ==> InPackets(t', item)
    ensures InDropped(t, item) ==> InDropped(t', item)
    ensures item in Framer.AllItems(t.packing) ==> InPackets(t', item)
  {
    hide Numbers;
    if InPackets(t, item) {
      var key :| Outstanding(t, key) && CarriedBy(t, key, item);
      assert Outstanding(t', key) && CarriedBy(t', key, item);
    }
    if InDropped(t, item) {
      var key :| key in t.dropped && CarriedBy(t, key, item);
      assert CarriedBy(t', key, item);
    }
    if item in Framer.AllItems(t.packing) {
      var key := PacketID(path, number);
      assert Outstanding(t', key) && CarriedBy(t', key, item);
    }
  }

  lemma RequeueFacts(s: A.System, queue: seq<Packet>, s': A.System)
    requires A.Inv(s) && A.NextStep(s, A.Requeue(queue), s')
    ensures A.Inv(s') && s' == s.(snd := s.snd.(queue := queue))
  {
    hide A.Inv;
    A.StepKeeps(s, A.Requeue(queue), s');
  }

  lemma FirstOfQueue(queue: seq<Packet>)
    requires queue != []
    ensures Numbers(queue) == {queue[0].number} + Numbers(queue[1..])
  {
    NumbersCons(queue[0], queue[1..]);
    assert [queue[0]] + queue[1..] == queue;
  }

  lemma CarriedFit(t: Transfer, key: PacketID)
    requires NetsOk(t) && FramesOk(t) && key in t.carried
    ensures AllFit(t.nets, t.carried[key])
  {
    hide N.Inv;
    forall f | f in t.carried[key] ensures Fits(t.nets, f) {
      assert AllSent(t.nets, t.carried[key]);
      assert NetOk(f.streamID, t.nets[f.streamID]);
      SenderOf(t.nets[f.streamID]);
    }
  }

  lemma FitConcat(nets: map<nat, N.Net>, a: seq<StreamFrame>, b: seq<StreamFrame>)
    requires AllFit(nets, a) && AllFit(nets, b)
    ensures AllFit(nets, a + b)
  {
  }

  // The frames of a packet that waited go back to the framer, or into the next packet, or are dropped.
  lemma RequeueKeeps(t: Transfer, path: nat, t': Transfer)
    requires Base(t) && RequeueStep(t, path, t')
    ensures Base(t')
  {
    hide A.Inv, A.NextStep, Numbers, NetOk, Fits, AllSent, AllFit;
    var waiting := t.paths[path].snd.queue;
    var key := PacketID(path, waiting[0].number);
    RequeueFacts(t.paths[path], waiting[1..], t'.paths[path]);
    FirstOfQueue(waiting);
    PathKeeps(t, path, t');
    ReceivedAgain(t, path, t');
    CarriedFit(t, key);
    FitConcat(t.nets, t.queue, t.carried[key]);
    SentConcat(t.nets, t.packing, t.carried[key]);
  }

  lemma RequeueItem(t: Transfer, path: nat, t': Transfer, item: Framer.Item)
    requires Base(t) && RequeueStep(t, path, t') && Safe(t, item)
    ensures Safe(t', item)
  {
    hide A.Inv, A.NextStep, Numbers, NetsOk, FramesOk, KeysOk, ReceivedOk, Somewhere, Written, InPackets, InDropped;
    var waiting := t.paths[path].snd.queue;
    var key := PacketID(path, waiting[0].number);
    RequeueFacts(t.paths[path], waiting[1..], t'.paths[path]);
    FirstOfQueue(waiting);
    ItemsAppend(t.queue, t.carried[key], item);
    ItemsAppend(t.packing, t.carried[key], item);
    if Accounted(t, item) {
      RequeuedItem(t, path, key, t', item);
      MoreHands(t, t', item);
    }
  }

  lemma RequeuedItem(t: Transfer, path: nat, key: PacketID, t': Transfer, item: Framer.Item)
    requires item.streamID in t.nets && t'.nets == t.nets && path in t.paths && path in t'.paths
    requires t'.paths == t.paths[path := t'.paths[path]] && t'.carried == t.carried && t.dropped <= t'.dropped
    requires key in t.carried && key.path == path
    requires Numbers(t'.paths[path].snd.history) == Numbers(t.paths[path].snd.history)
    requires Numbers(t.paths[path].snd.queue) <= {key.number} + Numbers(t'.paths[path].snd.queue)
    requires t'.queue == t.queue + t.carried[key] || t'.packing == t.packing + t.carried[key] || key in t'.dropped
    ensures InPackets(t, item) ==> Somewhere(t', item)
    ensures InDropped(t, item) ==> InDropped(t', item)
  {
    hide Numbers, Framer.AllItems, Framer.PendingItems;
    ItemsAppend(t.queue, t.carried[key], item);
    ItemsAppend(t.packing, t.carried[key], item);
    if InPackets(t, item) {
      var k :| Outstanding(t, k) && CarriedBy(t, k, item);
      if k == key {
        assert CarriedBy(t', key, item);
      } else {
        assert Outstanding(t', k) && CarriedBy(t', k, item);
      }
    }
    if InDropped(t, item) {
      var k :| k in t.dropped && CarriedBy(t, k, item);
      assert CarriedBy(t', k, item);
    }
  }

  lemma DuplicateKeeps(t: Transfer, path: nat, packet: Packet, t': Transfer)
    requires Base(t) && DuplicateStep(t, path, packet, t')
    ensures Base(t')
  {
    hide A.Inv, A.NextStep, Numbers, NetOk, Fits, AllSent;
    var s := t.paths[path];
    RequeueFacts(s, s.snd.queue + [packet], t'.paths[path]);
    NumbersConcat(s.snd.queue, [packet]);
    InFlight(s.snd.history, packet);
    InvFacts(s);
    PathKeeps(t, path, t');
    ReceivedAgain(t, path, t');
  }

  lemma DuplicateItem(t: Transfer, path: nat, packet: Packet, t': Transfer, item: Framer.Item)
    requires Base(t) && DuplicateStep(t, path, packet, t') && Safe(t, item)
    ensures Safe(t', item)
  {
    hide A.Inv, A.NextStep, Numbers, NetsOk, FramesOk, KeysOk, ReceivedOk, Somewhere, Written, InPackets, InDropped;
    var s := t.paths[path];
    RequeueFacts(s, s.snd.queue + [packet], t'.paths[path]);
    NumbersConcat(s.snd.queue, [packet]);
    SameOutstanding(t, path, t', item);
    if Accounted(t, item) {
      MoreHands(t, t', item);
    }
  }

  lemma InFlight(h: seq<Packet>, p: Packet)
    requires p in h
    ensures Numbers([p]) <= Numbers(h)
  {
    var i :| 0 <= i < |h| && h[i] == p;
    NumbersAt(h, i);
    assert forall n | n in Numbers([p]) :: n == p.number;
  }

  // ---------- streams and paths are opened ----------

  lemma OpenStreamKeeps(t: Transfer, id: nat, t': Transfer)
    requires Base(t) && id !in t.nets && t' == t.(nets := t.nets[id := NewNet(id)])
    ensures Base(t')
  {
    hide N.Inv, A.Inv, Numbers, N.FrameOk;
    N.InitInv(NewNet(id));
    forall fs: seq<StreamFrame>
      ensures AllFit(t.nets, fs) ==> AllFit(t'.nets, fs)
      ensures AllSent(t.nets, fs) ==> AllSent(t'.nets, fs)
    {
    }
  }

  lemma OpenStreamItem(t: Transfer, id: nat, t': Transfer, item: Framer.Item)
    requires id !in t.nets && t' == t.(nets := t.nets[id := NewNet(id)]) && Safe(t, item)
    ensures Safe(t', item)
  {
    hide InPackets, InDropped;
    SamePackets(t, t', item);
  }

  lemma OpenPathKeeps(t: Transfer, path: nat, t': Transfer)
    requires Base(t) && path !in t.paths && t' == t.(paths := t.paths[path := NewPath()])
    ensures Base(t')
  {
    hide A.Inv, NetOk, Fits, AllSent;
    A.InitInv(NewPath());
    assert Numbers([]) == {};
  }

  lemma OpenPathItem(t: Transfer, path: nat, t': Transfer, item: Framer.Item)
    requires path !in t.paths && t' == t.(paths := t.paths[path := NewPath()]) && Safe(t, item)
    ensures Safe(t', item)
  {
    hide Numbers;
    if item.streamID in t.nets && InPackets(t, item) {
      var key :| Outstanding(t, key) && CarriedBy(t, key, item);
      assert Outstanding(t', key) && CarriedBy(t', key, item);
    }
    if item.streamID in t.nets && InDropped(t, item) {
      var key :| key in t.dropped && CarriedBy(t, key, item);
      assert CarriedBy(t', key, item);
    }
  }

  // ---------- every step ----------

  lemma BaseKeeps(t: Transfer, step: Step, t': Transfer)
    requires Base(t) && NextStep(t, step, t')
    ensures Base(t')
  {
    hide Base, StreamStep, TakeStep, PopStep, SendStep, ReceiveStep, HandleStep, RequeueStep, DuplicateStep, Safe,
         NewNet, NewPath, A.NextStep;
    match step
    case OpenStream(id) => OpenStreamKeeps(t, id, t');
    case OpenPath(path) => OpenPathKeeps(t, path, t');
    case Stream(id, streamStep) => StreamKeeps(t, id, streamStep, t');
    case Take(id, f, space, window) => TakeKeeps(t, id, f, space, window, t');
    case Pop(maxLen, res) => PopKeeps(t, maxLen, res, t');
    case Send(path, packet, ask, frame, secure) => SendKeeps(t, path, packet, ask, frame, secure, t');
    case Receive(path, p, instigates, alarm, r, mid) => ReceiveKeeps(t, path, p, instigates, alarm, r, mid, t');
    case Handle(r) => HandleKeeps(t, r, t');
    case Path(path, pathStep) => AckKeeps(t, path, pathStep, t');
    case Requeue(path) => RequeueKeeps(t, path, t');
    case Duplicate(path, packet) => DuplicateKeeps(t, path, packet, t');
    case CompleteHandshake => CompleteBase(t, t');
  }

  lemma CompleteBase(t: Transfer, t': Transfer)
    requires Base(t) && t' == t.(handshakeComplete := true)
    ensures Base(t')
  {
    hide N.Inv, A.Inv, Numbers, NetOk, Fits;
  }

  // Whatever happens, an item that has been written is somewhere, unless some path has refused a packet.
  lemma ItemKeeps(t: Transfer, step: Step, t': Transfer, item: Framer.Item)
    requires Base(t) && NextStep(t, step, t') && !Refused(t') && Safe(t, item)
    ensures Safe(t', item)
  {
    hide Base, StreamStep, TakeStep, PopStep, SendStep, ReceiveStep, HandleStep, RequeueStep, DuplicateStep, Safe,
         NewNet, NewPath, A.NextStep, Refused;
    match step
    case OpenStream(id) => OpenStreamItem(t, id, t', item);
    case OpenPath(path) => OpenPathItem(t, path, t', item);
    case Stream(id, streamStep) => StreamItem(t, id, streamStep, t', item);
    case Take(id, f, space, window) => TakeItem(t, id, f, space, window, t', item);
    case Pop(maxLen, res) => PopItem(t, maxLen, res, t', item);
    case Send(path, packet, ask, frame, secure) => SendItem(t, path, packet, ask, frame, secure, t', item);
    case Receive(path, p, instigates, alarm, r, mid) => ReceiveItem(t, path, p, instigates, alarm, r, mid, t', item);
    case Handle(r) => HandleItem(t, r, t', item);
    case Path(path, pathStep) => AckItem(t, path, pathStep, t', item);
    case Requeue(path) => RequeueItem(t, path, t', item);
    case Duplicate(path, packet) => DuplicateItem(t, path, packet, t', item);
    case CompleteHandshake => CompleteItem(t, t', item);
  }

  lemma CompleteItem(t: Transfer, t': Transfer, item: Framer.Item)
    requires Safe(t, item) && t' == t.(handshakeComplete := true)
    ensures Safe(t', item)
  {
    hide InPackets, InDropped;
    SamePackets(t, t', item);
  }

  // A path that has refused a packet stays so.
  lemma RefusedStays(t: Transfer, step: Step, t': Transfer)
    requires Base(t) && NextStep(t, step, t') && Refused(t)
    ensures Refused(t')
  {
    hide Base, N.NextStep, Framer.PopSpec, WithSent, NewNet, NewPath;
    var path :| path in t.paths && t.paths[path].failed;
    FailedStays(t, step, t', path);
  }

  lemma FailedStays(t: Transfer, step: Step, t': Transfer, path: nat)
    requires NextStep(t, step, t') && path in t.paths && t.paths[path].failed
    ensures path in t'.paths && t'.paths[path].failed
  {
    hide N.NextStep, Framer.PopSpec, WithSent, NewNet, NewPath, S.AfterSend, S.AckSpec, S.ClosePathSpec, S.AfterAlarm,
         R.ReceiveSpec, R.Inv, R.Deleted, R.Contains, A.StopStep;
  }

  lemma StepKeeps(t: Transfer, step: Step, t': Transfer)
    requires Inv(t) && NextStep(t, step, t')
    ensures Inv(t')
  {
    hide Base, NextStep, Refused, Safe;
    BaseKeeps(t, step, t');
    if !Refused(t') {
      if Refused(t) {
        RefusedStays(t, step, t');
      }
      forall item ensures Safe(t', item) {
        ItemKeeps(t, step, t', item);
      }
    }
  }

  // ---------- how an item is lost ----------

  // With the sender or the receiver, or in a packet that is in flight or waits for retransmission.
  ghost predicate Kept(t: Transfer, item: Framer.Item) {
    item.streamID in t.nets && (AtEnds(t, item) || InPackets(t, item))
  }

  // The step takes a packet that was sent before encryption was forward-secure from the packets that wait for
  // retransmission, after the handshake.
  ghost predicate Drops(t: Transfer, step: Step) {
    && step.Requeue? && step.path in t.paths && t.paths[step.path].snd.queue != [] && t.handshakeComplete
    && PacketID(step.path, t.paths[step.path].snd.queue[0].number) in t.early
  }

  // The item is in no other packet.
  ghost predicate OnlyIn(t: Transfer, path: nat, item: Framer.Item)
    requires path in t.paths && t.paths[path].snd.queue != []
  {
    var snd := t.paths[path].snd;
    forall key | CarriedBy(t, key, item) && key.path in t.paths ::
      && key.number !in Numbers(t.paths[key.path].snd.history)
      && key.number !in Numbers(if key.path == path then snd.queue[1..] else t.paths[key.path].snd.queue)
  }

  // A step that does not drop a packet has the same effect whatever has been dropped before.
  lemma DroppedIrrelevant(t: Transfer, step: Step, t': Transfer)
    requires NextStep(t, step, t') && !Drops(t, step)
    ensures t'.dropped == t.dropped && NextStep(t.(dropped := {}), step, t'.(dropped := {}))
  {
    hide N.NextStep, A.NextStep, Framer.PopSpec, WithSent, NewNet, NewPath, Numbers;
  }

  lemma KeptSomewhere(t: Transfer, item: Framer.Item)
    ensures Kept(t, item) <==> Accounted(t.(dropped := {}), item)
    ensures Base(t) <==> Base(t.(dropped := {}))
    ensures Refused(t) <==> Refused(t.(dropped := {}))
  {
    hide N.Inv, A.Inv, Numbers, NetOk, Fits, AllSent, Framer.AllItems, Framer.PendingItems, Arrived;
    var t0 := t.(dropped := {});
    assert forall key :: Outstanding(t, key) <==> Outstanding(t0, key);
    assert forall key :: CarriedBy(t, key, item) <==> CarriedBy(t0, key, item);
    assert forall fs :: AllHandled(t, fs) <==> AllHandled(t0, fs);
  }

  // An item that has been written is lost exactly by dropping an early packet after the handshake, if it is in
  // that packet, in no other, and neither with the sender nor with the receiver.
  lemma LostExactly(t: Transfer, step: Step, t': Transfer, item: Framer.Item)
    requires Base(t) && NextStep(t, step, t') && !Refused(t')
    requires Kept(t, item) && Written(t.nets[item.streamID], item)
    ensures !Kept(t', item) <==> Drops(t, step) && OnlyIn(t, step.path, item) && !AtEnds(t, item)
  {
    hide Base, NextStep, Kept, Drops, OnlyIn, AtEnds, Refused, Written, Accounted;
    if Drops(t, step) {
      DropItem(t, step, t', item);
    } else {
      DroppedIrrelevant(t, step, t');
      KeptSomewhere(t, item);
      KeptSomewhere(t', item);
      SafeKept(t.(dropped := {}), item);
      ItemKeeps(t.(dropped := {}), step, t'.(dropped := {}), item);
      WrittenStays(t, step, t', item);
      KeptSafe(t'.(dropped := {}), item);
    }
  }

  lemma SafeKept(t: Transfer, item: Framer.Item)
    requires Accounted(t, item)
    ensures Safe(t, item) && item.streamID in t.nets
  {
  }

  lemma KeptSafe(t: Transfer, item: Framer.Item)
    requires Safe(t, item) && item.streamID in t.nets && Written(t.nets[item.streamID], item)
    ensures Accounted(t, item)
  {
  }

  lemma GrownWritten(s: N.Net, s': N.Net, item: Framer.Item)
    requires N.Grows(s, s') && Written(s, item)
    ensures Written(s', item)
  {
  }

  // What was written stays written.
  lemma WrittenStays(t: Transfer, step: Step, t': Transfer, item: Framer.Item)
    requires Base(t) && NextStep(t, step, t') && item.streamID in t.nets && Written(t.nets[item.streamID], item)
    ensures item.streamID in t'.nets && Written(t'.nets[item.streamID], item)
  {
    hide N.Inv, A.Inv, N.NextStep, A.NextStep, Framer.PopSpec, Numbers, PathsOk, FramesOk, KeysOk, ReceivedOk, N.Grows;
    match step
    case Stream(id, streamStep) => StreamWritten(t, id, streamStep, t', item);
    case Take(id, f, space, window) => StreamWritten(t, id, N.Send(f, space, window), t', item);
    case Handle(r) => StreamWritten(t, t.arriving[0].streamID, N.Deliver(t.arriving[0], r), t', item);
    case _ =>
  }

  lemma StreamWritten(t: Transfer, id: nat, step: N.Step, t': Transfer, item: Framer.Item)
    requires NetsOk(t) && id in t.nets && id in t'.nets && t'.nets == t.nets[id := t'.nets[id]]
    requires N.NextStep(t.nets[id], step, t'.nets[id])
    requires item.streamID in t.nets && Written(t.nets[item.streamID], item)
    ensures Written(t'.nets[item.streamID], item)
  {
    hide N.Inv, N.NextStep, N.Grows, Written;
    NetStep(t.nets[id], step, t'.nets[id]);
    if item.streamID == id {
      GrownWritten(t.nets[id], t'.nets[id], item);
    }
  }

  lemma DropItem(t: Transfer, step: Step, t': Transfer, item: Framer.Item)
    requires Base(t) && NextStep(t, step, t') && Drops(t, step) && Kept(t, item)
    ensures !Kept(t', item) <==> OnlyIn(t, step.path, item) && !AtEnds(t, item)
  {
    hide A.NextStep, Numbers, Base, OnlyIn, InPackets, Framer.AllItems, Framer.PendingItems, Arrived;
    var path := step.path;
    BasePath(t, path);
    RequeueFacts(t.paths[path], t.paths[path].snd.queue[1..], t'.paths[path]);
    DropPackets(t, path, t', item);
  }

  lemma BasePath(t: Transfer, path: nat)
    requires Base(t) && path in t.paths
    ensures A.Inv(t.paths[path])
  {
  }

  lemma DropPackets(t: Transfer, path: nat, t': Transfer, item: Framer.Item)
    requires path in t.paths && t.paths[path].snd.queue != [] && path in t'.paths && t'.carried == t.carried
    requires t'.paths == t.paths[path := t'.paths[path]]
    requires t'.paths[path].snd == t.paths[path].snd.(queue := t.paths[path].snd.queue[1..])
    ensures InPackets(t', item) <==> !OnlyIn(t, path, item)
  {
    hide Numbers;
    if InPackets(t', item) {
      var key :| Outstanding(t', key) && CarriedBy(t', key, item);
      assert CarriedBy(t, key, item);
    }
    if !OnlyIn(t, path, item) {
      var key :| CarriedBy(t, key, item) && key.path in t.paths
                 && (key.number in Numbers(t.paths[key.path].snd.history)
                     || key.number in Numbers(if key.path == path then t.paths[path].snd.queue[1..]
                                              else t.paths[key.path].snd.queue));
      assert Outstanding(t', key) && CarriedBy(t', key, item);
    }
  }

  // ---------- whole runs ----------

  ghost predicate IsRun(run: seq<Transfer>, steps: seq<Step>) {
    && |run| == |steps| + 1
    && Init(run[0])
    && (forall i :: 0 <= i < |steps| ==> NextStep(run[i], steps[i], run[i + 1]))
  }

  lemma {:induction false} RunInv(run: seq<Transfer>, steps: seq<Step>, n: nat)
    requires IsRun(run, steps) && n < |run|
    ensures Inv(run[n])
  {
    hide NextStep, Inv;
    if n == 0 {
      InitInv(run[0]);
    } else {
      RunInv(run, steps, n - 1);
      StepKeeps(run[n - 1], steps[n - 1], run[n]);
    }
  }

  lemma InitInv(t: Transfer)
    requires Init(t)
    ensures Inv(t)
  {
  }

  lemma StreamInv(run: seq<Transfer>, steps: seq<Step>, n: nat, id: nat)
    requires IsRun(run, steps) && n < |run| && id in run[n].nets
    ensures N.Inv(run[n].nets[id]) && run[n].nets[id].send.streamID == id
  {
    hide NextStep, N.Inv, PathsOk, FramesOk, KeysOk, ReceivedOk, Refused, Safe;
    RunInv(run, steps, n);
    assert NetOk(id, run[n].nets[id]);
  }

  // Over all runs, every stream is read as it was written, although the lost frames of all streams are mixed
  // and cut again, and packets go over any path.
  lemma ReadsPrefix(run: seq<Transfer>, steps: seq<Step>, n: nat, id: nat)
    requires IsRun(run, steps) && n < |run| && id in run[n].nets
    ensures run[n].nets[id].output <= run[n].nets[id].written
  {
    hide NextStep;
    StreamInv(run, steps, n, id);
  }

  lemma EofMeansEnd(run: seq<Transfer>, steps: seq<Step>, n: nat, id: nat)
    requires IsRun(run, steps) && n < |run| && id in run[n].nets
    requires run[n].nets[id].finished && !run[n].nets[id].finCut
    ensures run[n].nets[id].output == run[n].nets[id].written && run[n].nets[id].send.finishedWriting
  {
    hide NextStep;
    StreamInv(run, steps, n, id);
  }

  // Over all runs, every byte and every end of a stream that has been written is with the sender, in a packet
  // that is in flight or waits for retransmission, or has arrived; or it was in a packet that was dropped.
  lemma NothingLost(run: seq<Transfer>, steps: seq<Step>, n: nat, item: Framer.Item)
    requires IsRun(run, steps) && n < |run| && !Refused(run[n])
    requires item.streamID in run[n].nets && Written(run[n].nets[item.streamID], item)
    ensures AtEnds(run[n], item) || InPackets(run[n], item) || InDropped(run[n], item)
  {
    hide NextStep, Base, Refused, Written, AtEnds, InPackets, InDropped;
    RunInv(run, steps, n);
    assert Safe(run[n], item);
  }

  // Packets are dropped only if they were sent early.
  lemma {:induction false} DroppedEarly(run: seq<Transfer>, steps: seq<Step>, n: nat)
    requires IsRun(run, steps) && n < |run|
    ensures run[n].dropped <= run[n].early && (run[n].dropped != {} ==> run[n].handshakeComplete)
  {
    if n > 0 {
      DroppedEarly(run, steps, n - 1);
      assert NextStep(run[n - 1], steps[n - 1], run[n]);
      DropStep(run[n - 1], steps[n - 1], run[n]);
    }
  }

  lemma DropStep(t: Transfer, step: Step, t': Transfer)
    requires NextStep(t, step, t') && t.dropped <= t.early && (t.dropped != {} ==> t.handshakeComplete)
    ensures t'.dropped <= t'.early && (t'.dropped != {} ==> t'.handshakeComplete)
  {
    hide N.NextStep, A.NextStep, Framer.PopSpec, WithSent, NewNet, NewPath;
  }

  // Nothing is left with the sender or on the way.
  ghost predicate Quiet(t: Transfer, id: nat)
    requires id in t.nets
  {
    && Framer.PendingItems(t.nets[id].send) == [] && t.queue == [] && t.packing == [] && t.arriving == []
    && forall path | path in t.paths :: t.paths[path].snd.history == [] && t.paths[path].snd.queue == []
  }

  // No packet that was dropped carried data of the stream.
  ghost predicate NoneDropped(t: Transfer, id: nat) {
    forall key, f | key in t.dropped && key in t.carried && f in t.carried[key] :: f.streamID != id
  }

  // Unless data of the stream was dropped: once nothing is left with the sender or on the way, all that was
  // written can be read, and the end of the stream has arrived if there is one.
  lemma EverythingArrives(run: seq<Transfer>, steps: seq<Step>, n: nat, id: nat)
    requires IsRun(run, steps) && n < |run| && !Refused(run[n])
    requires id in run[n].nets && !run[n].nets[id].failed && Quiet(run[n], id) && NoneDropped(run[n], id)
    ensures var s := run[n].nets[id];
            && Recv.Ok(s.sorter, s.readOffset) && s.output + Recv.Unread(s.sorter, s.readOffset) == s.written
            && (s.send.finishedWriting ==> Arrived(s, Framer.Fin(id, |s.written|)))
  {
    hide NextStep, Inv, N.Inv, Refused, NoneDropped;
    StreamInv(run, steps, n, id);
    var t, s := run[n], run[n].nets[id];
    forall item: Framer.Item | item.streamID == id && Written(s, item) ensures Arrived(s, item) {
      NothingLost(run, steps, n, item);
      NotDropped(t, id, item);
    }
    forall x: nat | x < |s.written| ensures N.Covered(s.delivered, x) {
      ByteArrived(s, id, x);
    }
    N.AllReadable(s);
  }

  lemma NotDropped(t: Transfer, id: nat, item: Framer.Item)
    requires NoneDropped(t, id) && item.streamID == id
    ensures !InDropped(t, item)
  {
    if InDropped(t, item) {
      var key :| key in t.dropped && CarriedBy(t, key, item);
      ItemOf(t.carried[key], item);
      var f :| f in t.carried[key] && item in Framer.FrameItems(f);
      ItemStream(f, item);
    }
  }

  lemma ByteArrived(s: N.Net, id: nat, x: nat)
    requires x < |s.written| && Arrived(s, Framer.Byte(id, x, s.written[x]))
    ensures N.Covered(s.delivered, x)
  {
  }

  // ---------- data sent before the handshake is complete ----------

  const EARLY: Packet := Packet(1, [Listed], 100, 0)

  const EARLY_FRAME: StreamFrame := StreamFrame(5, false, true, 0, 0, 0, 0, [7])

  // The sender of packets after it has sent one, and after the alarm.
  lemma EarlySent()
    ensures var st := S.AfterSend(S.INIT_STATE, EARLY);
            st.history == [EARLY] && st.queue == [] && st.lossTime == None && st.tlpCount == 0
  {
    hide S.LastTen, S.From;
    assert StripNonRetransmittable([Listed]) == [Listed];
  }

  lemma EarlyAlarm(st: S.State)
    requires st.history == [EARLY] && st.queue == [] && st.lossTime == None && st.tlpCount == 0
    ensures S.AfterAlarm(st, 1000, 500, false).history == [] && S.AfterAlarm(st, 1000, 500, false).queue == [EARLY]
  {
    hide S.DetectLost, SumLength, S.NextUnacked;
    assert st.history[0].IsRetransmittable();
    PickAll(st.history, {1});
  }

  // One byte is written, and goes out early.
  lemma EarlyTaken() returns (written: N.Net, taken: N.Net)
    ensures written.written == [7] && N.NextStep(NewNet(5), N.Write([7]), written)
    ensures N.NextStep(written, N.Send(EARLY_FRAME, 100, 100), taken)
    ensures taken.written == [7] && taken.delivered == {} && !taken.failed && Framer.PendingItems(taken.send) == []
  {
    var net := NewNet(5);
    written := net.(send := net.send.(dataForWriting := Some([7])), written := [7]);
    taken := written.(send := written.send.(dataForWriting := None, writeOffset := 1), sent := {EARLY_FRAME});
    TakenOnce(written.send, taken.send);
  }

  lemma TakenOnce(s: Framer.SendState, s': Framer.SendState)
    requires s == Framer.SendState(5, Some([7]), 0, false, false) && s' == Framer.SendState(5, None, 1, false, false)
    ensures Framer.FrameTaken(s, Some(EARLY_FRAME), 100, 100, s')
    ensures Framer.PendingItems(s') == []
  {
  }

  // Its packet is in flight, and then waits for retransmission.
  lemma EarlyLost() returns (sent: A.System, lost: A.System, last: A.System)
    ensures A.NextStep(NewPath(), A.Send(EARLY, None, None), sent)
    ensures A.NextStep(sent, A.Alarm(1000, 500, false), lost) && lost.snd.queue == [EARLY]
    ensures A.NextStep(lost, A.Requeue([]), last) && last.snd.history == [] && last.snd.queue == [] && !last.failed
  {
    hide S.AfterSend, S.AfterAlarm;
    EarlySent();
    A.SentStop(S.INIT_STATE, EARLY);
    var path := NewPath();
    sent := path.(snd := S.AfterSend(S.INIT_STATE, EARLY), packets := {A.DataPacket(1, None)});
    EarlyAlarm(sent.snd);
    lost := sent.(snd := S.AfterAlarm(sent.snd, 1000, 500, false));
    last := lost.(snd := lost.snd.(queue := []));
  }

  // The states of the run, given those of the stream and of the path.
  ghost function EarlyState(i: nat, written: N.Net, taken: N.Net, sent: A.System, lost: A.System,
                            last: A.System): Transfer {
    var key := PacketID(0, 1);
    Transfer(
      if i == 0 then map[] else map[5 := if i < 3 then NewNet(5) else if i == 3 then written else taken],
      if i < 2 then map[]
      else map[0 := if i < 5 then NewPath() else if i < 7 then sent else if i == 7 then lost else last],
      [],
      if i == 4 then [EARLY_FRAME] else [],
      [],
      if i < 5 then map[] else map[key := [EARLY_FRAME]],
      if i < 5 then {} else {key},
      i >= 6,
      if i < 8 then {} else {key})
  }

  const EARLY_STEPS: seq<Step> :=
    [OpenStream(5), OpenPath(0), Stream(5, N.Write([7])), Take(5, EARLY_FRAME, 100, 100),
     Send(0, EARLY, None, None, false), CompleteHandshake, Path(0, A.Alarm(1000, 500, false)), Requeue(0)]

  lemma EarlyStep(i: nat, written: N.Net, taken: N.Net, sent: A.System, lost: A.System, last: A.System)
    requires i < 8 && N.NextStep(NewNet(5), N.Write([7]), written)
    requires N.NextStep(written, N.Send(EARLY_FRAME, 100, 100), taken)
    requires A.NextStep(NewPath(), A.Send(EARLY, None, None), sent)
    requires A.NextStep(sent, A.Alarm(1000, 500, false), lost) && lost.snd.queue == [EARLY]
    requires A.NextStep(lost, A.Requeue([]), last)
    ensures NextStep(EarlyState(i, written, taken, sent, lost, last), EARLY_STEPS[i],
                     EarlyState(i + 1, written, taken, sent, lost, last))
  {
    hide N.NextStep, A.NextStep, NewNet, NewPath;
    var t, t' := EarlyState(i, written, taken, sent, lost, last), EarlyState(i + 1, written, taken, sent, lost, last);
    if i < 4 {
      assert NextStep(t, EARLY_STEPS[i], t');
    } else {
      assert [EARLY][1..] == [];
      assert NextStep(t, EARLY_STEPS[i], t');
    }
  }

  // The byte is lost, and the handshake is completed before the alarm says so: then nothing is left with the
  // sender or on the way, and the byte has not arrived.
  lemma EarlyDataLost() returns (run: seq<Transfer>, steps: seq<Step>)
    ensures IsRun(run, steps) && |steps| == 8
    ensures var t := run[8];
            && 5 in t.nets && t.nets[5].written == [7] && t.nets[5].delivered == {} && !t.nets[5].failed
            && Quiet(t, 5) && !Refused(t)
  {
    hide N.NextStep, A.NextStep, NextStep, NewNet, NewPath, Framer.PendingItems;
    var written, taken := EarlyTaken();
    var sent, lost, last := EarlyLost();
    steps := EARLY_STEPS;
    run := seq(9, i requires 0 <= i < 9 => EarlyState(i, written, taken, sent, lost, last));
    forall i | 0 <= i < 8 ensures NextStep(run[i], steps[i], run[i + 1]) {
      EarlyStep(i, written, taken, sent, lost, last);
    }
  }
}
