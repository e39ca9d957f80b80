/** What a handler keeps over whole runs of calls, whatever the peer sends. */
module ProtocolRuns {
  import opened Wire
  import opened Blocks
  import opened Protocol

  // ── Accounting ──────────────────────────────────────────────────────────

  /** Everything that can happen to a handler once its limits are set. */
  datatype Call = Receive(block: Block) | Note | Begin | Restart

  function After(h: Handler, c: Call): Handler {
    match c
    case Receive(b) => Process(h, b).0
    case Note => NoteFrame(h).0
    case Begin => h.BeginExchange()
    case Restart => h.Reset()
  }

  predicate Succeeds(h: Handler, c: Call) {
    match c
    case Receive(b) => Process(h, b).1.Ok?
    case Note => NoteFrame(h).1.Ok?
    case _ => true
  }

  function Run(h: Handler, calls: seq<Call>): Handler {
    if calls == [] then h else After(Run(h, calls[..|calls| - 1]), calls[|calls| - 1])
  }

  /** The block was accepted, and this is what it meant. */
  predicate Means(h: Handler, c: Call, reading: Reading) {
    c.Receive? && Process(h, c.block).1.Ok? && Reads(h.role, h.number, c.block) == reading
  }

  ghost function NextMoves(before: Handler, c: Call, moves: nat): nat {
    if c.Restart? || Means(before, c, Released) then 0
    else if Means(before, c, Taken) || Means(before, c, Acknowledged) then moves + 1
    else moves
  }

  /** I-blocks taken in and chunks acknowledged since the last reset. */
  ghost function Moves(h: Handler, calls: seq<Call>): nat {
    if calls == [] then 0 else
      var init, c := calls[..|calls| - 1], calls[|calls| - 1];
      NextMoves(Run(h, init), c, Moves(h, init))
  }

  ghost function NextGathered(before: Handler, c: Call, so: seq<seq<byte>>): seq<seq<byte>> {
    match c
    case Begin => []
    case Restart => []
    case Note => if NoteFrame(before).1.Ok? then so else []
    case Receive(b) =>
      match Process(before, b).1
      case Err(e) => if e.LimitExceeded? then [] else so
      case Ok(Complete(_)) => []
      case Ok(_) =>
        if Means(before, c, Released) then []
        else if Means(before, c, Taken) then so + [b.payload] else so
  }

  /** The payloads taken in since an exchange began, an APDU completed or a limit tripped. */
  ghost function Gathered(h: Handler, calls: seq<Call>): seq<seq<byte>> {
    if calls == [] then [] else
      var init, c := calls[..|calls| - 1], calls[|calls| - 1];
      NextGathered(Run(h, init), c, Gathered(h, init))
  }

  /** No call has failed since an exchange began. */
  ghost predicate Undisturbed(h: Handler, calls: seq<Call>) {
    calls != [] ==>
      var before, c := Run(h, calls[..|calls| - 1]), calls[|calls| - 1];
      c.Begin? || c.Restart? || (Succeeds(before, c) && Undisturbed(h, calls[..|calls| - 1]))
  }

  predicate WithinLimits(c: Counters, l: Limits) {
    && c.frames <= l.maxFrames
    && c.retransmissions <= l.maxRetransmissions
    && c.consecutiveWtx <= l.maxConsecutiveWtx
    && c.totalWtx <= l.maxTotalWtx
  }

  ghost predicate Accounted(n: Handler, moves: nat, gathered: seq<seq<byte>>, undisturbed: bool) {
    && n.number == (InitialNumber(n.role) + moves) % 2
    && n.chain == Flatten(gathered)
    && |n.chain| <= n.limits.maxChainLen
    && (undisturbed ==> WithinLimits(n.counters, n.limits))
  }

  lemma NumberAccounted(n: Handler, b: Block, moves: nat)
    requires n.number == (InitialNumber(n.role) + moves) % 2
    ensures var t := Process(n, b).0;
            t.number == (InitialNumber(n.role) + NextMoves(n, Receive(b), moves)) % 2
  {
    ParityOfNext(InitialNumber(n.role) + moves);
  }

  lemma ChainAccounted(n: Handler, b: Block, gathered: seq<seq<byte>>)
    requires n.chain == Flatten(gathered) && |n.chain| <= n.limits.maxChainLen
    ensures var t := Process(n, b).0;
            t.chain == Flatten(NextGathered(n, Receive(b), gathered)) && |t.chain| <= n.limits.maxChainLen
  {
    FlattenSnoc(gathered, b.payload);
  }

  lemma CountersAccounted(n: Handler, b: Block)
    requires WithinLimits(n.counters, n.limits) && Process(n, b).1.Ok?
    ensures WithinLimits(Process(n, b).0.counters, n.limits)
  {
  }

  lemma CallAccounted(n: Handler, c: Call, moves: nat, gathered: seq<seq<byte>>, undisturbed: bool)
    requires Accounted(n, moves, gathered, undisturbed)
    ensures Accounted(After(n, c), NextMoves(n, c, moves), NextGathered(n, c, gathered),
                      c.Begin? || c.Restart? || (Succeeds(n, c) && undisturbed))
    ensures SameSession(n, After(n, c))
  {
    if c.Receive? {
      NumberAccounted(n, c.block, moves);
      ChainAccounted(n, c.block, gathered);
      if Succeeds(n, c) && undisturbed {
        CountersAccounted(n, c.block);
      }
      ProcessKeepsSession(n, c.block);
    }
  }

  /** The block number is the initial one plus the parity of the moves, the chain is the
      payloads gathered, and nothing grows past its limit. */
  lemma {:induction false} RunAccounting(h: Handler, calls: seq<Call>)
    requires h.number == InitialNumber(h.role) && h.chain == [] && h.counters == NO_COUNTS
    ensures SameSession(h, Run(h, calls))
    ensures Accounted(Run(h, calls), Moves(h, calls), Gathered(h, calls), Undisturbed(h, calls))
  {
    if calls != [] {
      var init, c := calls[..|calls| - 1], calls[|calls| - 1];
      RunAccounting(h, init);
      CallAccounted(Run(h, init), c, Moves(h, init), Gathered(h, init), Undisturbed(h, init));
    }
  }

  predicate SameSession(h: Handler, n: Handler) {
    n.role == h.role && n.cid == h.cid && n.limits == h.limits
  }

  lemma ProcessKeepsSession(h: Handler, b: Block)
    ensures SameSession(h, Process(h, b).0)
  {
  }

  lemma ParityOfNext(n: nat)
    ensures (n + 1) % 2 == 1 - n % 2
  {
  }

  // ── What a block is answered with ───────────────────────────────────────

  predicate IsWtx(b: Block) {
    b.pcb.blockType == SBlock && b.pcb.sSubtype == Some(SSubtype.Wtx)
  }

  /** An S(WTX) that is accepted is echoed, by either role: the same INF, under the CID of
      the session. */
  lemma WtxIsEchoed(h: Handler, request: Block)
    requires IsWtx(request) && Process(h, request).1.Ok?
    ensures var o := Process(h, request).1;
            o.value.Reply? &&
            var reply := o.value.block;
            && IsWtx(reply) && reply.payload == request.payload && reply.cid == h.cid && reply.nad == None
    ensures var n := Process(h, request).0;
            n == h.(counters := n.counters)
  {
  }

  /** It is accepted exactly when its INF is one byte with a multiplier from 1 to 59 and no
      counter passes its limit; otherwise the chain is dropped. */
  lemma WtxAcceptedIff(h: Handler, request: Block)
    requires IsWtx(request)
    ensures var (n, o) := Process(h, request);
            && (o.Ok? <==>
                  && |request.payload| == 1 && 1 <= request.payload[0] & 0x3f <= 59
                  && Next16(h.counters.frames) <= h.limits.maxFrames
                  && Next8(h.counters.consecutiveWtx) <= h.limits.maxConsecutiveWtx
                  && Next16(h.counters.totalWtx) <= h.limits.maxTotalWtx)
            && (o.Err? ==> n.chain == [] && n.number == h.number)
  {
  }

  /** Rule 12: a card answers an R(NAK) that does not carry its number with R(ACK) under its
      own, and nothing but the frame count changes. It never sends R(NAK). */
  lemma PollIsAcknowledged(h: Handler, poll: Block)
    requires h.role == Role.Picc && poll.pcb.blockType == RBlock && poll.pcb.rSubtype == Some(Nak)
    requires poll.pcb.number != h.number && Next16(h.counters.frames) <= h.limits.maxFrames
    ensures var (n, o) := Process(h, poll);
            && n == h.(counters := h.counters.(frames := Next16(h.counters.frames)))
            && o.Ok? && o.value.Reply?
            && var reply := o.value.block;
               && reply.pcb.blockType == RBlock && reply.pcb.rSubtype == Some(Ack) && reply.pcb.number == h.number
               && reply.cid == h.cid && reply.payload == []
  {
  }

  lemma NeverNaks(h: Handler, b: Block)
    ensures var o := Process(h, b).1;
            o.Ok? && o.value.Reply? && o.value.block.pcb.blockType == RBlock ==>
              o.value.block.pcb.rSubtype == Some(Ack) && o.value.block.pcb.number == Process(h, b).0.number
  {
  }

  /** S(DESELECT) is answered in kind and leaves the handler as it was set up: 0 is the first
      number of a reader, 1 that of a card. */
  lemma DeselectRestarts(h: Handler, b: Block)
    requires b.pcb.blockType == SBlock && b.pcb.sSubtype == Some(Deselect)
    requires Next16(h.counters.frames) <= h.limits.maxFrames
    ensures var (n, o) := Process(h, b);
            && n == Handler(h.role, h.cid, if h.role == Role.Pcd then 0 else 1, [], h.limits, Counters(0, 0, 0, 0))
            && o.Ok? && o.value.Reply?
            && var reply := o.value.block;
               && reply.pcb.blockType == SBlock && reply.pcb.sSubtype == Some(Deselect)
               && reply.cid == h.cid && reply.payload == []
  {
  }

  /** Each limit that a block passes is the one reported: the frame budget first, then what
      the block asks for. */
  lemma PassedLimitsAreNamed(h: Handler, b: Block)
    ensures Next16(h.counters.frames) > h.limits.maxFrames ==> Process(h, b).1 == Err(LimitExceeded(Frames))
    ensures Next16(h.counters.frames) <= h.limits.maxFrames ==>
              var o := Process(h, b).1;
              && (b.pcb.blockType == IBlock && (b.pcb.number == h.number) == (h.role == Role.Pcd) ==>
                    |h.chain| + |b.payload| > h.limits.maxChainLen ==> o == Err(LimitExceeded(ChainLength)))
              && (b.pcb.blockType == IBlock && (b.pcb.number == h.number) != (h.role == Role.Pcd) ==>
                    Next8(h.counters.retransmissions) > h.limits.maxRetransmissions ==>
                      o == Err(LimitExceeded(Retransmissions)))
              && (IsWtx(b) && (|b.payload| != 1 || !(1 <= b.payload[0] & 0x3f <= 59)) ==>
                    o == Err(LimitExceeded(WtxValue)))
  {
  }

  /** A limit is reported when it has been passed, and then the handler holds no chain. */
  lemma LimitsAreReported(h: Handler, b: Block)
    ensures var (n, o) := Process(h, b);
            o.Err? && o.error.LimitExceeded? ==>
              && n.chain == [] && n.number == h.number
              && match o.error.limit
                 case Frames => n.counters.frames > n.limits.maxFrames
                 case Retransmissions => n.counters.retransmissions > n.limits.maxRetransmissions
                 case ConsecutiveWtx => n.counters.consecutiveWtx > n.limits.maxConsecutiveWtx
                 case TotalWtx => n.counters.totalWtx > n.limits.maxTotalWtx
                 case WtxValue => IsWtx(b)
                 case ChainLength => b.pcb.blockType == IBlock && |h.chain| + |b.payload| > n.limits.maxChainLen
                 case FrameSize => false
    ensures var (n, o) := Process(h, b);
            o.Ok? ==> WithinLimits(n.counters, n.limits) || !WithinLimits(h.counters, h.limits)
  {
  }

  // ── Stuttering ──────────────────────────────────────────────────────────

  /** What may come between a chained I-block and the next block. */
  datatype Stutter = Copy | Wait(request: Block)

  datatype Item = Item(block: Block, stutters: seq<Stutter>)

  function StutterBlock(b: Block, s: Stutter): Block {
    match s
    case Copy => b
    case Wait(w) => w
  }

  function Last(h: Handler, blocks: seq<Block>): Handler
    decreases |blocks|
  {
    if blocks == [] then h else Last(Process(h, blocks[0]).0, blocks[1..])
  }

  function Outcomes(h: Handler, blocks: seq<Block>): seq<Outcome>
    decreases |blocks|
  {
    if blocks == [] then [] else [Process(h, blocks[0]).1] + Outcomes(Process(h, blocks[0]).0, blocks[1..])
  }

  function Plain(items: seq<Item>): seq<Block> {
    seq(|items|, i requires 0 <= i < |items| => items[i].block)
  }

  function Group(b: Block, stutters: seq<Stutter>): seq<Block> {
    seq(|stutters|, i requires 0 <= i < |stutters| => StutterBlock(b, stutters[i]))
  }

  function Stuttered(items: seq<Item>): seq<Block>
    decreases |items|
  {
    if items == [] then []
    else [items[0].block] + Group(items[0].block, items[0].stutters) + Stuttered(items[1..])
  }

  function Copies(stutters: seq<Stutter>): nat
    decreases |stutters|
  {
    if stutters == [] then 0 else (if stutters[0].Copy? then 1 else 0) + Copies(stutters[1..])
  }

  function Waits(stutters: seq<Stutter>): nat
    decreases |stutters|
  {
    if stutters == [] then 0 else (if stutters[0].Wait? then 1 else 0) + Waits(stutters[1..])
  }

  function AllWaits(items: seq<Item>): nat
    decreases |items|
  {
    if items == [] then 0 else Waits(items[0].stutters) + AllWaits(items[1..])
  }

  predicate FairItem(item: Item, l: Limits) {
    && (item.stutters != [] ==> item.block.pcb.blockType == IBlock && item.block.pcb.chaining)
    && Copies(item.stutters) <= l.maxRetransmissions
    && Waits(item.stutters) <= l.maxConsecutiveWtx
    && forall s <- item.stutters :: s.Wait? ==>
         IsWtx(s.request) && |s.request.payload| == 1 && 1 <= s.request.payload[0] & 0x3f <= 59
  }

  predicate Moving(r: Reading) {
    r == Taken || r == Acknowledged
  }

  /** Every block carries the exchange forward. */
  predicate AllMove(h: Handler, blocks: seq<Block>)
    decreases |blocks|
  {
    blocks == [] ||
    (&& Process(h, blocks[0]).1.Ok?
     && Moving(Reads(h.role, h.number, blocks[0]))
     && AllMove(Process(h, blocks[0]).0, blocks[1..]))
  }

  function StutterOutcome(h: Handler, o: Outcome, s: Stutter): Outcome {
    match s
    case Copy => o
    case Wait(w) => Ok(Reply(Block(Pcb.New(SBlock).WithS(SSubtype.Wtx), h.cid, None, w.payload)))
  }

  function GroupOutcomes(h: Handler, o: Outcome, stutters: seq<Stutter>): seq<Outcome> {
    seq(|stutters|, i requires 0 <= i < |stutters| => StutterOutcome(h, o, stutters[i]))
  }

  /** The outcomes of the plain run, each copy answered like its original and each S(WTX)
      with its echo. */
  function Expected(h: Handler, items: seq<Item>): seq<Outcome>
    decreases |items|
  {
    if items == [] then [] else
      var (n, o) := Process(h, items[0].block);
      [o] + GroupOutcomes(h, o, items[0].stutters) + Expected(n, items[1..])
  }

  /** Equal but for the counters. */
  predicate Agree(h: Handler, s: Handler) {
    h.(counters := NO_COUNTS) == s.(counters := NO_COUNTS)
  }

  lemma {:induction false} OutcomesConcat(h: Handler, a: seq<Block>, b: seq<Block>)
    ensures Outcomes(h, a + b) == Outcomes(h, a) + Outcomes(Last(h, a), b)
    ensures Last(h, a + b) == Last(Last(h, a), b)
    decreases |a|
  {
    if a == [] {
      assert a + b == b;
    } else {
      assert (a + b)[1..] == a[1..] + b;
      OutcomesConcat(Process(h, a[0]).0, a[1..], b);
    }
  }

  /** One copy or wait leaves everything but the counters alone. */
  lemma StutterStep(s: Handler, b: Block, st: Stutter)
    requires b.pcb.blockType == IBlock && Reads(s.role, s.number, b) == Repeated
    requires FairItem(Item(b, [st]), s.limits)
    requires st.Copy? ==> s.counters.retransmissions < s.limits.maxRetransmissions
    requires st.Wait? ==> s.counters.consecutiveWtx < s.limits.maxConsecutiveWtx
    requires st.Wait? ==> s.counters.totalWtx < s.limits.maxTotalWtx
    requires s.counters.frames < s.limits.maxFrames
    ensures var (t, o) := Process(s, StutterBlock(b, st));
            && o == StutterOutcome(s, Ok(Reply(s.RAck())), st)
            && t == s.(counters := Counters(s.counters.frames + 1,
                                            s.counters.retransmissions + (if st.Copy? then 1 else 0),
                                            s.counters.consecutiveWtx + (if st.Wait? then 1 else 0),
                                            s.counters.totalWtx + (if st.Wait? then 1 else 0)))
  {
    assert st in [st];
  }

  /** Copies and waits leave everything but the counters alone. */
  lemma {:induction false} GroupStutters(s: Handler, b: Block, stutters: seq<Stutter>)
    requires b.pcb.blockType == IBlock && Reads(s.role, s.number, b) == Repeated
    requires stutters != [] ==> FairItem(Item(b, stutters), s.limits)
    requires s.counters.retransmissions + Copies(stutters) <= s.limits.maxRetransmissions
    requires s.counters.consecutiveWtx + Waits(stutters) <= s.limits.maxConsecutiveWtx
    requires s.counters.totalWtx + Waits(stutters) <= s.limits.maxTotalWtx
    requires s.counters.frames + |stutters| <= s.limits.maxFrames
    ensures Outcomes(s, Group(b, stutters)) == GroupOutcomes(s, Ok(Reply(s.RAck())), stutters)
    ensures Agree(s, Last(s, Group(b, stutters)))
    ensures Last(s, Group(b, stutters)).counters.totalWtx == s.counters.totalWtx + Waits(stutters)
    ensures Last(s, Group(b, stutters)).counters.frames == s.counters.frames + |stutters|
    decreases |stutters|
  {
    hide Process, Reads;
    if stutters != [] {
      var st, rest := stutters[0], stutters[1..];
      assert st in stutters;
      assert Copies([st][1..]) == 0 && Waits([st][1..]) == 0;
      StutterStep(s, b, st);
      var t := Process(s, StutterBlock(b, st)).0;
      GroupStutters(t, b, rest);
      assert Group(b, stutters) == [StutterBlock(b, st)] + Group(b, rest);
      assert GroupOutcomes(s, Ok(Reply(s.RAck())), stutters)
          == [Process(s, StutterBlock(b, st)).1] + GroupOutcomes(t, Ok(Reply(t.RAck())), rest);
    }
  }

  /** A block that carries the exchange forward does the same whatever the counters say. */
  lemma MovesAgree(h: Handler, s: Handler, b: Block)
    requires Agree(h, s) && s.counters.frames < s.limits.maxFrames
    requires Process(h, b).1.Ok? && Moving(Reads(h.role, h.number, b))
    ensures Process(s, b).1 == Process(h, b).1
    ensures Agree(Process(h, b).0, Process(s, b).0)
    ensures Process(s, b).0.counters.retransmissions == Process(s, b).0.counters.consecutiveWtx == 0
    ensures Process(s, b).0.counters.frames == s.counters.frames + 1
    ensures Process(s, b).0.counters.totalWtx == s.counters.totalWtx
  {
  }

  lemma OutcomesCons(s: Handler, b: Block, rest: seq<Block>)
    ensures Outcomes(s, [b] + rest) == [Process(s, b).1] + Outcomes(Process(s, b).0, rest)
    ensures Last(s, [b] + rest) == Last(Process(s, b).0, rest)
  {
    assert ([b] + rest)[1..] == rest;
  }

  /** A block and its stutters. */
  lemma ItemStutters(h: Handler, s: Handler, item: Item)
    requires Agree(h, s) && FairItem(item, h.limits)
    requires Process(h, item.block).1.Ok? && Moving(Reads(h.role, h.number, item.block))
    requires s.counters.totalWtx + Waits(item.stutters) <= h.limits.maxTotalWtx
    requires s.counters.frames + 1 + |item.stutters| <= h.limits.maxFrames
    ensures var (n, o) := Process(h, item.block);
            var blocks := [item.block] + Group(item.block, item.stutters);
            var t := Last(s, blocks);
            && Outcomes(s, blocks) == [o] + GroupOutcomes(h, o, item.stutters)
            && Agree(n, t)
            && t.counters.totalWtx == s.counters.totalWtx + Waits(item.stutters)
            && t.counters.frames == s.counters.frames + 1 + |item.stutters|
  {
    var b := item.block;
    MovesAgree(h, s, b);
    var s', o := Process(s, b).0, Process(h, b).1;
    OutcomesCons(s, b, Group(b, item.stutters));
    if item.stutters != [] {
      assert o == Ok(Reply(s'.RAck()));
      GroupStutters(s', b, item.stutters);
      assert GroupOutcomes(s', o, item.stutters) == GroupOutcomes(h, o, item.stutters);
    }
  }

  /** Repeated chunks and S(WTX) within the budgets change no payload, no block number and
      no acknowledgement. */
  lemma {:induction false} Stuttering(h: Handler, s: Handler, items: seq<Item>)
    requires Agree(h, s)
    requires AllMove(h, Plain(items))
    requires forall item <- items :: FairItem(item, h.limits)
    requires s.counters.totalWtx + AllWaits(items) <= h.limits.maxTotalWtx
    requires s.counters.frames + |Stuttered(items)| <= h.limits.maxFrames
    ensures Outcomes(s, Stuttered(items)) == Expected(h, items)
    ensures Agree(Last(h, Plain(items)), Last(s, Stuttered(items)))
    decreases |items|
  {
    if items != [] {
      var item, rest := items[0], items[1..];
      assert item in items;
      assert Plain(items) == [item.block] + Plain(rest);
      ItemStutters(h, s, item);
      var blocks := [item.block] + Group(item.block, item.stutters);
      OutcomesConcat(s, blocks, Stuttered(rest));
      ProcessKeepsSession(h, item.block);
      Stuttering(Process(h, item.block).0, Last(s, blocks), rest);
      OutcomesCons(h, item.block, Plain(rest));
    }
  }
}
