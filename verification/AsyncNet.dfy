/** Ranks that run straight-line communication code over point-to-point channels.

  Each rank owns a value and the two receive buffers that every collective of the group
  library uses, one for its left partner and one for its right partner.  Two machines run
  the same code: one with an unbounded FIFO per directed channel, where a write never
  blocks, and one with no buffering at all, where a write and the matching read happen
  together. */
module AsyncNet {
  import opened Confluence

  /** A directed channel: the two ranks it joins, the group it belongs to, and the index of
      the hop (2^hop ranks away) it serves in that group. */
  datatype Channel = Channel(src: nat, dst: nat, grp: nat, hop: nat)

  datatype Instr<!V, !M> =
    | Send(to: Channel, msg: V -> M)
    | RecvLeft(from: Channel)
    | RecvRight(from: Channel)
    | Compute(f: (V, M, M) -> V)

  datatype Rank<!V, !M> = Rank(val: V, left: M, right: M, code: seq<Instr<V, M>>)

  datatype Net<!V, !M> = Net(ranks: seq<Rank<V, M>>, wires: map<Channel, seq<M>>)

  function Queued<M>(wires: map<Channel, seq<M>>, c: Channel): seq<M> {
    if c in wires then wires[c] else []
  }

  /** Channels that carry nothing are not recorded, so quiet networks are equal. */
  function SetQueue<M>(wires: map<Channel, seq<M>>, c: Channel, q: seq<M>): map<Channel, seq<M>> {
    if q == [] then wires - {c} else wires[c := q]
  }

  function Advance<V, M>(r: Rank<V, M>): Rank<V, M>
    requires r.code != []
  {
    r.(code := r.code[1..])
  }

  function SetRank<V, M>(s: Net<V, M>, a: nat, r: Rank<V, M>): Net<V, M>
    requires a < |s.ranks|
  {
    s.(ranks := s.ranks[a := r])
  }

  /** Whether rank `a` may execute its next instruction, seeing `q` on the channel it names. */
  predicate Ready<V, M>(a: nat, i: Instr<V, M>, q: seq<M>) {
    match i
    case Send(to, _) => to.src == a
    case RecvLeft(from) => from.dst == a && q != []
    case RecvRight(from) => from.dst == a && q != []
    case Compute(_) => true
  }

  function Executed<V, M>(me: Rank<V, M>, q: seq<M>): Rank<V, M>
    requires me.code != []
    requires me.code[0].RecvLeft? || me.code[0].RecvRight? ==> q != []
  {
    match me.code[0]
    case Send(_, _) => Advance(me)
    case RecvLeft(_) => Advance(me).(left := q[0])
    case RecvRight(_) => Advance(me).(right := q[0])
    case Compute(f) => Advance(me).(val := f(me.val, me.left, me.right))
  }

  function QueueAfter<V, M>(me: Rank<V, M>, q: seq<M>): seq<M>
    requires me.code != [] && !me.code[0].Compute?
    requires me.code[0].Send? || q != []
  {
    if me.code[0].Send? then q + [me.code[0].msg(me.val)] else q[1..]
  }

  function Wire<V, M>(i: Instr<V, M>): Channel
    requires !i.Compute?
  {
    if i.Send? then i.to else i.from
  }

  /** One move of rank `a` when channels are FIFOs: only a read from an empty channel blocks. */
  function BufferedStep<V, M>(a: nat, s: Net<V, M>): Option<Net<V, M>> {
    if a >= |s.ranks| || s.ranks[a].code == [] then None
    else
      var me := s.ranks[a];
      if me.code[0].Compute? then Some(SetRank(s, a, Executed(me, [])))
      else
        var c := Wire(me.code[0]);
        var q := Queued(s.wires, c);
        if !Ready(a, me.code[0], q) then None
        else Some(Net(s.ranks[a := Executed(me, q)], SetQueue(s.wires, c, QueueAfter(me, q))))
  }

  predicate Expects<V, M>(r: Rank<V, M>, c: Channel) {
    r.code != [] && (r.code[0] == RecvLeft(c) || r.code[0] == RecvRight(c))
  }

  function Take<V, M>(r: Rank<V, M>, m: M): Rank<V, M>
    requires r.code != []
  {
    if r.code[0].RecvLeft? then Advance(r).(left := m) else Advance(r).(right := m)
  }

  /** One move of rank `a` with no buffering: a write completes together with the read at the
      other end, so the writer is blocked until its partner has reached that read. */
  function RendezvousStep<V, M>(a: nat, s: Net<V, M>): Option<Net<V, M>> {
    if a >= |s.ranks| || s.ranks[a].code == [] then None
    else
      var me := s.ranks[a];
      match me.code[0]
      case Send(to, msg) =>
        if to.src == a && to.dst != a && to.dst < |s.ranks| && Expects(s.ranks[to.dst], to) then
          Some(SetRank(SetRank(s, a, Advance(me)), to.dst, Take(s.ranks[to.dst], msg(me.val))))
        else None
      case Compute(f) =>
        Some(SetRank(s, a, Advance(me).(val := f(me.val, me.left, me.right))))
      case _ => None
  }

  lemma SetQueueCommutes<M>(wires: map<Channel, seq<M>>, c: Channel, p: seq<M>, d: Channel, q: seq<M>)
    ensures Queued(SetQueue(wires, c, p), d) == if c == d then p else Queued(wires, d)
    ensures c != d ==> SetQueue(SetQueue(wires, c, p), d, q) == SetQueue(SetQueue(wires, d, q), c, p)
    ensures SetQueue(SetQueue(wires, c, p), c, q) == SetQueue(wires, c, q)
  {
  }

  lemma BufferedCommutes<V(!new), M(!new)>(s: Net<V, M>, a: nat, b: nat)
    requires a != b
    requires BufferedStep(a, s).Some? && BufferedStep(b, s).Some?
    ensures BufferedStep(b, BufferedStep(a, s).value).Some?
    ensures BufferedStep(b, BufferedStep(a, s).value) == BufferedStep(a, BufferedStep(b, s).value)
  {
    var ra, rb := s.ranks[a], s.ranks[b];
    if !ra.code[0].Compute? && !rb.code[0].Compute? {
      var c, d := Wire(ra.code[0]), Wire(rb.code[0]);
      var p, q := Queued(s.wires, c), Queued(s.wires, d);
      SetQueueCommutes(s.wires, c, QueueAfter(ra, p), d, QueueAfter(rb, q));
      SetQueueCommutes(s.wires, d, QueueAfter(rb, q), c, QueueAfter(ra, p));
      if c == d {
        SetQueueCommutes(s.wires, c, QueueAfter(ra, p), c, QueueAfter(rb, QueueAfter(ra, p)));
        SetQueueCommutes(s.wires, c, QueueAfter(rb, q), c, QueueAfter(ra, QueueAfter(rb, q)));
        assert QueueAfter(rb, QueueAfter(ra, p)) == QueueAfter(ra, QueueAfter(rb, p));
      }
    }
    var sa, sb := BufferedStep(a, s).value, BufferedStep(b, s).value;
    assert sa.ranks[b] == rb && sb.ranks[a] == ra;
    assert BufferedStep(b, sa).value.ranks == BufferedStep(a, sb).value.ranks;
  }

  lemma RendezvousCommutes<V(!new), M(!new)>(s: Net<V, M>, a: nat, b: nat)
    requires a != b
    requires RendezvousStep(a, s).Some? && RendezvousStep(b, s).Some?
    ensures RendezvousStep(b, RendezvousStep(a, s).value).Some?
    ensures RendezvousStep(b, RendezvousStep(a, s).value) == RendezvousStep(a, RendezvousStep(b, s).value)
  {
    var sa, sb := RendezvousStep(a, s).value, RendezvousStep(b, s).value;
    assert RendezvousStep(b, sa).value.ranks == RendezvousStep(a, sb).value.ranks;
  }
}
