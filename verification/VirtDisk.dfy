/**
The RAM block device. It is built in one of two ways: a request queue drained by
`virt_disk_request`, which locates each segment by the request's current sector,
or `virt_disk_make_request`, which walks one bio with a byte cursor.

Segments point into one flat memory and may overlap each other in any way, so
both paths are compared copy by copy. The block layer's own guarantees appear as
preconditions: a request has at least one segment, no segment is empty, every
access lies on the disk.
*/
module VirtDisk {
  import opened Memory

  const SECTOR_SIZE: nat := 512

  datatype Dir = READ | WRITE

  /** A bio_vec: `len` bytes of memory from `addr`. */
  datatype Seg = Seg(addr: nat, len: nat)

  datatype Bio = Bio(dir: Dir, sector: nat, segs: seq<Seg>)

  /** A request in flight: its current sector and the segments still to do. */
  datatype Request = Request(dir: Dir, pos: nat, segs: seq<Seg>)

  datatype Store = Store(disk: seq<byte>, mem: seq<byte>)

  /** One memcpy between the disk at `off` and a segment. */
  datatype Copy = Copy(dir: Dir, off: nat, seg: Seg)

  function Bytes(segs: seq<Seg>): nat {
    if segs == [] then 0 else segs[0].len + Bytes(segs[1..])
  }

  ghost predicate Fit(segs: seq<Seg>, off: nat, disk: nat, mem: nat) {
    && off + Bytes(segs) <= disk
    && forall i :: 0 <= i < |segs| ==> segs[i].addr + segs[i].len <= mem
  }

  // ------------------------------------------------------- what copies do

  predicate Legal(c: Copy, disk: nat, mem: nat) {
    c.off + c.seg.len <= disk && c.seg.addr + c.seg.len <= mem
  }

  ghost predicate AllLegal(cs: seq<Copy>, st: Store) {
    forall i :: 0 <= i < |cs| ==> Legal(cs[i], |st.disk|, |st.mem|)
  }

  function Do(st: Store, c: Copy): (st': Store)
    requires Legal(c, |st.disk|, |st.mem|)
    ensures |st'.disk| == |st.disk| && |st'.mem| == |st.mem|
  {
    match c.dir
    case READ => st.(mem := Splice(st.mem, c.seg.addr, st.disk[c.off..c.off + c.seg.len]))
    case WRITE => st.(disk := Splice(st.disk, c.off, st.mem[c.seg.addr..c.seg.addr + c.seg.len]))
  }

  ghost function DoAll(st: Store, cs: seq<Copy>): (st': Store)
    requires AllLegal(cs, st)
    ensures |st'.disk| == |st.disk| && |st'.mem| == |st.mem|
    decreases |cs|
  {
    if cs == [] then st else DoAll(Do(st, cs[0]), cs[1..])
  }

  lemma {:induction false} DoAllConcat(st: Store, a: seq<Copy>, b: seq<Copy>)
    requires AllLegal(a, st) && AllLegal(b, st)
    ensures AllLegal(a + b, st)
    ensures DoAll(st, a + b) == DoAll(DoAll(st, a), b)
    decreases |a|
  {
    if a == [] {
      assert a + b == b;
    } else {
      assert (a + b)[1..] == a[1..] + b;
      DoAllConcat(Do(st, a[0]), a[1..], b);
    }
  }

  // ---------------------------------------------- where each path copies

  /** The byte cursor of the bio path. */
  function CursorPlan(dir: Dir, start: nat, segs: seq<Seg>): (cs: seq<Copy>)
    ensures |cs| == |segs|
    decreases |segs|
  {
    if segs == [] then []
    else [Copy(dir, start, segs[0])] + CursorPlan(dir, start + segs[0].len, segs[1..])
  }

  function BioPlan(b: Bio): seq<Copy> {
    CursorPlan(b.dir, b.sector * SECTOR_SIZE, b.segs)
  }

  function BiosPlan(bs: seq<Bio>): seq<Copy> {
    if bs == [] then [] else BioPlan(bs[0]) + BiosPlan(bs[1..])
  }

  /** A request after its current segment is ended: on by whole sectors. */
  function Advance(r: Request): Request
    requires r.segs != []
  {
    r.(pos := r.pos + r.segs[0].len / SECTOR_SIZE, segs := r.segs[1..])
  }

  /** The sector counter of the queue path. */
  function SectorPlan(r: Request): (cs: seq<Copy>)
    ensures |cs| == |r.segs|
    decreases |r.segs|
  {
    if r.segs == [] then []
    else [Copy(r.dir, r.pos * SECTOR_SIZE, r.segs[0])] + SectorPlan(Advance(r))
  }

  function QueuePlan(rs: seq<Request>): seq<Copy> {
    if rs == [] then [] else SectorPlan(rs[0]) + QueuePlan(rs[1..])
  }

  ghost predicate RequestFits(r: Request, disk: nat, mem: nat) {
    Fit(r.segs, r.pos * SECTOR_SIZE, disk, mem)
  }

  lemma {:induction false} SectorPlanLegal(r: Request, st: Store)
    requires RequestFits(r, |st.disk|, |st.mem|)
    ensures AllLegal(SectorPlan(r), st)
    decreases |r.segs|
  {
    if r.segs != [] {
      SectorPlanLegal(Advance(r), st);
    }
  }

  lemma {:induction false} CursorPlanLegal(dir: Dir, start: nat, segs: seq<Seg>, st: Store)
    requires Fit(segs, start, |st.disk|, |st.mem|)
    ensures AllLegal(CursorPlan(dir, start, segs), st)
    decreases |segs|
  {
    if segs != [] {
      CursorPlanLegal(dir, start + segs[0].len, segs[1..], st);
    }
  }

  ghost predicate QueueFits(rs: seq<Request>, disk: nat, mem: nat) {
    forall i :: 0 <= i < |rs| ==> RequestFits(rs[i], disk, mem)
  }

  lemma {:induction false} QueuePlanLegal(rs: seq<Request>, st: Store)
    requires QueueFits(rs, |st.disk|, |st.mem|)
    ensures AllLegal(QueuePlan(rs), st)
    decreases |rs|
  {
    if rs != [] {
      SectorPlanLegal(rs[0], st);
      QueuePlanLegal(rs[1..], st);
    }
  }

  // ------------------------------------------------------------ the driver

  ghost predicate WellFormed(r: Request) {
    r.segs != [] && forall i :: 0 <= i < |r.segs| ==> r.segs[i].len > 0
  }

  function SegCount(rs: seq<Request>): nat {
    if rs == [] then 0 else |rs[0].segs| + SegCount(rs[1..])
  }

  /** The block layer's queue; `cur` is the request the driver holds. */
  class RequestQueue {
    var pending: seq<Request>
    var cur: Option<Request>

    constructor (rs: seq<Request>)
      ensures pending == rs && cur == None
    {
      pending := rs;
      cur := None;
    }

    /** Everything not done yet, the held request first. */
    ghost function Left(): seq<Request>
      reads this
    {
      (if cur.Some? then [cur.value] else []) + pending
    }

    /** blk_fetch_request */
    method Fetch()
      modifies this
      ensures old(pending) == [] ==> pending == [] && cur == None
      ensures old(pending) != [] ==> pending == old(pending)[1..] && cur == Some(old(pending)[0])
    {
      if pending == [] {
        cur := None;
      } else {
        cur, pending := Some(pending[0]), pending[1..];
      }
    }

    /** __blk_end_request_cur: true while the request has more segments. */
    method EndCur() returns (more: bool)
      requires cur.Some? && WellFormed(cur.value)
      modifies this
      ensures pending == old(pending)
      ensures cur == Some(Advance(old(cur).value))
      ensures more == (|old(cur).value.segs| > 1)
    {
      cur := Some(Advance(cur.value));
      more := cur.value.segs != [];
    }
  }

  lemma DoFirst(st: Store, c: Copy, cs: seq<Copy>)
    requires AllLegal([c] + cs, st)
    ensures DoAll(st, [c] + cs) == DoAll(Do(st, c), cs)
  {
    assert ([c] + cs)[1..] == cs;
  }

  /** The requests left once the first segment of the first one is ended. */
  function AfterSegment(rs: seq<Request>): seq<Request>
    requires rs != [] && rs[0].segs != []
  {
    if |rs[0].segs| > 1 then [Advance(rs[0])] + rs[1..] else rs[1..]
  }

  ghost predicate Ready(rs: seq<Request>, disk: nat, mem: nat) {
    && (forall i :: 0 <= i < |rs| ==> WellFormed(rs[i]))
    && QueueFits(rs, disk, mem)
  }

  function HeadCopy(r: Request): Copy
    requires r.segs != []
  {
    Copy(r.dir, r.pos * SECTOR_SIZE, r.segs[0])
  }

  lemma HeadLegal(r: Request, disk: nat, mem: nat)
    requires r.segs != [] && RequestFits(r, disk, mem)
    ensures Legal(HeadCopy(r), disk, mem)
    ensures RequestFits(Advance(r), disk, mem)
  {
    var len := r.segs[0].len;
    assert Advance(r).pos * SECTOR_SIZE <= r.pos * SECTOR_SIZE + len;
    assert forall i :: 0 <= i < |r.segs[1..]| ==> r.segs[1..][i] == r.segs[i + 1];
  }

  lemma ReadyStep(rs: seq<Request>, disk: nat, mem: nat)
    requires rs != [] && Ready(rs, disk, mem)
    ensures Ready(AfterSegment(rs), disk, mem)
    ensures SegCount(AfterSegment(rs)) < SegCount(rs)
  {
    var r := rs[0];
    HeadLegal(r, disk, mem);
    if |r.segs| > 1 {
      assert WellFormed(Advance(r)) by {
        assert forall i :: 0 <= i < |r.segs[1..]| ==> r.segs[1..][i] == r.segs[i + 1];
      }
      assert AfterSegment(rs)[1..] == rs[1..];
    }
  }

  lemma {:induction false} PlanStep(rs: seq<Request>)
    requires rs != [] && rs[0].segs != []
    ensures QueuePlan(rs) == [HeadCopy(rs[0])] + QueuePlan(AfterSegment(rs))
  {
    var head, later, others := HeadCopy(rs[0]), SectorPlan(Advance(rs[0])), QueuePlan(rs[1..]);
    assert QueuePlan(rs) == ([head] + later) + others == [head] + (later + others);
    if |rs[0].segs| > 1 {
      PlanFirst(Advance(rs[0]), rs[1..]);
    } else {
      assert later == [] && later + others == others;
    }
  }

  lemma PlanFirst(r: Request, rs: seq<Request>)
    ensures QueuePlan([r] + rs) == SectorPlan(r) + QueuePlan(rs)
  {
    assert ([r] + rs)[0] == r && ([r] + rs)[1..] == rs;
  }

  lemma QueueStep(rs: seq<Request>, st: Store)
    requires rs != [] && Ready(rs, |st.disk|, |st.mem|)
    ensures Legal(HeadCopy(rs[0]), |st.disk|, |st.mem|)
    ensures AllLegal(QueuePlan(rs), st) && AllLegal(QueuePlan(AfterSegment(rs)), st)
    ensures DoAll(st, QueuePlan(rs)) == DoAll(Do(st, HeadCopy(rs[0])), QueuePlan(AfterSegment(rs)))
  {
    HeadLegal(rs[0], |st.disk|, |st.mem|);
    ReadyStep(rs, |st.disk|, |st.mem|);
    QueuePlanLegal(rs, st);
    QueuePlanLegal(AfterSegment(rs), st);
    PlanStep(rs);
    DoFirst(st, HeadCopy(rs[0]), QueuePlan(AfterSegment(rs)));
  }

  /** Doing the requests left takes the store to its end state. */
  ghost predicate Owes(left: seq<Request>, st: Store, end: Store) {
    && Ready(left, |st.disk|, |st.mem|)
    && AllLegal(QueuePlan(left), st)
    && DoAll(st, QueuePlan(left)) == end
  }

  lemma OwesStep(left: seq<Request>, st: Store, end: Store)
    requires left != [] && Owes(left, st, end)
    ensures WellFormed(left[0]) && Legal(HeadCopy(left[0]), |st.disk|, |st.mem|)
    ensures Owes(AfterSegment(left), Do(st, HeadCopy(left[0])), end)
    ensures SegCount(AfterSegment(left)) < SegCount(left)
  {
    QueueStep(left, st);
    ReadyStep(left, |st.disk|, |st.mem|);
  }

  lemma CursorStep(dir: Dir, start: nat, segs: seq<Seg>, st: Store)
    requires segs != [] && Fit(segs, start, |st.disk|, |st.mem|)
    ensures Legal(Copy(dir, start, segs[0]), |st.disk|, |st.mem|)
    ensures Fit(segs[1..], start + segs[0].len, |st.disk|, |st.mem|)
    ensures AllLegal(CursorPlan(dir, start, segs), st)
    ensures var st' := Do(st, Copy(dir, start, segs[0]));
            var rest := CursorPlan(dir, start + segs[0].len, segs[1..]);
            AllLegal(rest, st') && DoAll(st, CursorPlan(dir, start, segs)) == DoAll(st', rest)
  {
    assert forall i :: 0 <= i < |segs[1..]| ==> segs[1..][i] == segs[i + 1];
    CursorPlanLegal(dir, start, segs, st);
    CursorPlanLegal(dir, start + segs[0].len, segs[1..], st);
    DoFirst(st, Copy(dir, start, segs[0]), CursorPlan(dir, start + segs[0].len, segs[1..]));
  }

  class VirtDisk {
    const buffer: array<byte>
    const ram: array<byte>

    constructor (buffer: array<byte>, ram: array<byte>)
      ensures this.buffer == buffer && this.ram == ram
    {
      this.buffer := buffer;
      this.ram := ram;
    }

    ghost function State(): Store
      reads this, buffer, ram
    {
      Store(buffer[..], ram[..])
    }

    /** The memcpy of one segment, in the direction of the transfer. */
    method Transfer(dir: Dir, start: nat, seg: Seg)
      requires buffer != ram && Legal(Copy(dir, start, seg), buffer.Length, ram.Length)
      modifies buffer, ram
      ensures State() == Do(old(State()), Copy(dir, start, seg))
    {
      ghost var st := State();
      if dir == READ {
        ghost var data := st.disk[start..start + seg.len];
        assert buffer[start..start + seg.len] == data;
        MemCpy(ram, seg.addr, buffer, start, seg.len);
        assert ram[..] == Splice(st.mem, seg.addr, data) && buffer[..] == st.disk;
      } else {
        ghost var data := st.mem[seg.addr..seg.addr + seg.len];
        assert ram[seg.addr..seg.addr + seg.len] == data;
        MemCpy(buffer, start, ram, seg.addr, seg.len);
        assert buffer[..] == Splice(st.disk, start, data) && ram[..] == st.mem;
      }
    }

    /** virt_disk_request */
    method DrainQueue(rq: RequestQueue)
      requires buffer != ram && rq.cur == None
      requires Ready(rq.pending, buffer.Length, ram.Length)
      modifies rq, buffer, ram
      ensures rq.pending == [] && rq.cur == None
      ensures AllLegal(QueuePlan(old(rq.pending)), old(State()))
      ensures State() == DoAll(old(State()), QueuePlan(old(rq.pending)))
    {
      ghost var end: Store;
      QueuePlanLegal(rq.pending, State());
      end := DoAll(State(), QueuePlan(rq.pending));
      rq.Fetch();
      while rq.cur.Some?
        invariant rq.cur == None ==> rq.pending == []
        invariant Owes(rq.Left(), State(), end)
        decreases SegCount(rq.Left())
      {
        ghost var left := rq.Left();
        var r := rq.cur.value;
        assert r == left[0] && left[1..] == rq.pending;
        OwesStep(left, State(), end);
        Transfer(r.dir, r.pos * SECTOR_SIZE, r.segs[0]);
        var more := rq.EndCur();
        if !more {
          rq.Fetch();
        }
        assert rq.Left() == AfterSegment(left);
      }
    }

    /** virt_disk_make_request */
    method MakeRequest(b: Bio)
      requires buffer != ram && Fit(b.segs, b.sector * SECTOR_SIZE, buffer.Length, ram.Length)
      modifies buffer, ram
      ensures AllLegal(BioPlan(b), old(State()))
      ensures State() == DoAll(old(State()), BioPlan(b))
    {
      ghost var st0 := State();
      var start: nat := b.sector * SECTOR_SIZE;
      CursorPlanLegal(b.dir, start, b.segs, st0);
      assert b.segs[0..] == b.segs;
      for i := 0 to |b.segs|
        invariant Fit(b.segs[i..], start, buffer.Length, ram.Length)
        invariant AllLegal(CursorPlan(b.dir, start, b.segs[i..]), State())
        invariant DoAll(State(), CursorPlan(b.dir, start, b.segs[i..])) == DoAll(st0, BioPlan(b))
      {
        var vec := b.segs[i];
        assert b.segs[i..][0] == vec && b.segs[i..][1..] == b.segs[i + 1..];
        ghost var st := State();
        assert |st.disk| == buffer.Length && |st.mem| == ram.Length;
        CursorStep(b.dir, start, b.segs[i..], st);
        Transfer(b.dir, start, vec);
        assert State() == Do(st, Copy(b.dir, start, vec));
        start := start + vec.len;
      }
    }
  }

  // ------------------------------------------------ the two paths agree

  /** Every segment that is followed by another covers whole sectors. */
  ghost predicate Aligned(segs: seq<Seg>) {
    forall i :: 0 <= i < |segs| - 1 ==> segs[i].len % SECTOR_SIZE == 0
  }

  /**
  The sector counter and the byte cursor pick the same place for every segment
  exactly when all segments but the last cover whole sectors.
  */
  lemma {:induction false} CursorsAgree(r: Request)
    ensures SectorPlan(r) == CursorPlan(r.dir, r.pos * SECTOR_SIZE, r.segs) <==> Aligned(r.segs)
    decreases |r.segs|
  {
    if |r.segs| > 1 {
      var len := r.segs[0].len;
      var next := Advance(r);
      CursorsAgree(next);
      assert forall i :: 0 <= i < |next.segs| ==> next.segs[i] == r.segs[i + 1];
      assert Aligned(r.segs) <==> len % SECTOR_SIZE == 0 && Aligned(next.segs) by {
        if len % SECTOR_SIZE == 0 && Aligned(next.segs) {
          forall i | 0 <= i < |r.segs| - 1
            ensures r.segs[i].len % SECTOR_SIZE == 0
          {
            assert i > 0 ==> r.segs[i] == next.segs[i - 1];
          }
        }
      }
      var a := SectorPlan(next);
      var b := CursorPlan(r.dir, r.pos * SECTOR_SIZE + len, next.segs);
      assert SectorPlan(r)[1..] == a && CursorPlan(r.dir, r.pos * SECTOR_SIZE, r.segs)[1..] == b;
      assert a[0].off == next.pos * SECTOR_SIZE && b[0].off == r.pos * SECTOR_SIZE + len;
      assert a[0].off == b[0].off <==> len % SECTOR_SIZE == 0;
    }
  }

  // A bio as the upper layers submit it, and bios merged into one request.

  function SegsOf(bs: seq<Bio>): seq<Seg> {
    if bs == [] then [] else bs[0].segs + SegsOf(bs[1..])
  }

  /** Each bio starts where the one before it ends, in the same direction. */
  ghost predicate Contiguous(bs: seq<Bio>) {
    |bs| > 1 ==>
      && bs[1].dir == bs[0].dir
      && bs[1].sector * SECTOR_SIZE == bs[0].sector * SECTOR_SIZE + Bytes(bs[0].segs)
      && Contiguous(bs[1..])
  }

  function Merge(bs: seq<Bio>): Request
    requires bs != []
  {
    Request(bs[0].dir, bs[0].sector, SegsOf(bs))
  }

  lemma {:induction false} CursorConcat(dir: Dir, start: nat, a: seq<Seg>, b: seq<Seg>)
    ensures CursorPlan(dir, start, a + b) == CursorPlan(dir, start, a) + CursorPlan(dir, start + Bytes(a), b)
    decreases |a|
  {
    if a == [] {
      assert a + b == b;
    } else {
      assert (a + b)[1..] == a[1..] + b;
      CursorConcat(dir, start + a[0].len, a[1..], b);
    }
  }

  /** Merging contiguous bios does not change where anything goes. */
  lemma {:induction false} MergedPlan(bs: seq<Bio>)
    requires bs != [] && Contiguous(bs)
    ensures CursorPlan(bs[0].dir, bs[0].sector * SECTOR_SIZE, SegsOf(bs)) == BiosPlan(bs)
    decreases |bs|
  {
    var dir, start := bs[0].dir, bs[0].sector * SECTOR_SIZE;
    var rest := bs[1..];
    var next := start + Bytes(bs[0].segs);
    calc {
      CursorPlan(dir, start, SegsOf(bs));
      CursorPlan(dir, start, bs[0].segs + SegsOf(rest));
      { CursorConcat(dir, start, bs[0].segs, SegsOf(rest)); }
      BioPlan(bs[0]) + CursorPlan(dir, next, SegsOf(rest));
      { MergedRest(bs); }
      BioPlan(bs[0]) + BiosPlan(rest);
      BiosPlan(bs);
    }
  }

  lemma {:induction false} MergedRest(bs: seq<Bio>)
    requires bs != [] && Contiguous(bs)
    ensures CursorPlan(bs[0].dir, bs[0].sector * SECTOR_SIZE + Bytes(bs[0].segs), SegsOf(bs[1..])) == BiosPlan(bs[1..])
    decreases |bs|, 0
  {
    if |bs| > 1 {
      assert bs[1..][0] == bs[1];
      MergedPlan(bs[1..]);
    }
  }

  function Flatten(groups: seq<seq<Bio>>): seq<Bio> {
    if groups == [] then [] else groups[0] + Flatten(groups[1..])
  }

  function MergeAll(groups: seq<seq<Bio>>): (rs: seq<Request>)
    requires forall i :: 0 <= i < |groups| ==> |groups[i]| > 0
    ensures |rs| == |groups| && forall i :: 0 <= i < |rs| ==> rs[i] == Merge(groups[i])
  {
    seq(|groups|, i requires 0 <= i < |groups| => Merge(groups[i]))
  }

  lemma {:induction false} BiosPlanConcat(a: seq<Bio>, b: seq<Bio>)
    ensures BiosPlan(a + b) == BiosPlan(a) + BiosPlan(b)
    decreases |a|
  {
    if a == [] {
      assert a + b == b;
    } else {
      assert (a + b)[1..] == a[1..] + b;
      BiosPlanConcat(a[1..], b);
    }
  }

  ghost predicate GoodGroup(bs: seq<Bio>) {
    Contiguous(bs) && Aligned(SegsOf(bs))
  }

  /**
  Bios merged into requests in any way and drained from the queue make the same
  copies in the same order as the bios submitted one by one to the bio path.
  */
  lemma {:induction false} PathsEquivalent(groups: seq<seq<Bio>>)
    requires forall i :: 0 <= i < |groups| ==> |groups[i]| > 0 && GoodGroup(groups[i])
    ensures QueuePlan(MergeAll(groups)) == BiosPlan(Flatten(groups))
    decreases |groups|
  {
    if groups != [] {
      var rs := MergeAll(groups);
      PathsEquivalent(groups[1..]);
      assert rs[1..] == MergeAll(groups[1..]);
      CursorsAgree(rs[0]);
      MergedPlan(groups[0]);
      BiosPlanConcat(groups[0], Flatten(groups[1..]));
    }
  }

  lemma BiosPlanSnoc(bs: seq<Bio>, i: nat, st: Store)
    requires i < |bs| && AllLegal(BiosPlan(bs[..i]), st) && AllLegal(BioPlan(bs[i]), st)
    ensures AllLegal(BiosPlan(bs[..i + 1]), st)
    ensures DoAll(st, BiosPlan(bs[..i + 1])) == DoAll(DoAll(st, BiosPlan(bs[..i])), BioPlan(bs[i]))
  {
    var b := bs[i];
    assert BiosPlan([b]) == BioPlan(b) + [] == BioPlan(b);
    assert bs[..i + 1] == bs[..i] + [b];
    BiosPlanConcat(bs[..i], [b]);
    DoAllConcat(st, BiosPlan(bs[..i]), BioPlan(b));
  }

  /** The block layer submitting bios one by one, as it does without a scheduler. */
  method SubmitAll(vd: VirtDisk, bs: seq<Bio>)
    requires vd.buffer != vd.ram
    requires BiosFit(bs, vd.buffer.Length, vd.ram.Length)
    modifies vd.buffer, vd.ram
    ensures AllLegal(BiosPlan(bs), old(vd.State()))
    ensures vd.State() == DoAll(old(vd.State()), BiosPlan(bs))
  {
    ghost var st0 := vd.State();
    assert bs[..0] == [];
    for i := 0 to |bs|
      invariant AllLegal(BiosPlan(bs[..i]), st0)
      invariant vd.State() == DoAll(st0, BiosPlan(bs[..i]))
    {
      vd.MakeRequest(bs[i]);
      BiosPlanSnoc(bs, i, st0);
    }
    assert bs[..|bs|] == bs;
  }

  // ------------------------------------------------------ the abstract disk

  /** What a transfer sees in memory: its segments end to end. */
  function Gather(mem: seq<byte>, segs: seq<Seg>): (data: seq<byte>)
    requires forall i :: 0 <= i < |segs| ==> segs[i].addr + segs[i].len <= |mem|
    ensures |data| == Bytes(segs)
    decreases |segs|
  {
    if segs == [] then []
    else mem[segs[0].addr..segs[0].addr + segs[0].len] + Gather(mem, segs[1..])
  }

  /** Memory once the bytes of the disk from `off` on are laid out over the segments in order. */
  function Loaded(mem: seq<byte>, segs: seq<Seg>, disk: seq<byte>, off: nat): (mem': seq<byte>)
    requires forall i :: 0 <= i < |segs| ==> segs[i].addr + segs[i].len <= |mem|
    requires off + Bytes(segs) <= |disk|
    ensures |mem'| == |mem|
    decreases |segs|
  {
    if segs == [] then mem
    else
      var n := segs[0].len;
      Loaded(Splice(mem, segs[0].addr, disk[off..off + n]), segs[1..], disk, off + n)
  }

  /** Sequential application to an abstract disk: a whole transfer in one go. */
  ghost function Transferred(st: Store, dir: Dir, off: nat, segs: seq<Seg>): Store
    requires Fit(segs, off, |st.disk|, |st.mem|)
  {
    match dir
    case READ => st.(mem := Loaded(st.mem, segs, st.disk, off))
    case WRITE => st.(disk := Splice(st.disk, off, Gather(st.mem, segs)))
  }

  lemma {:induction false} WriteRefines(st: Store, off: nat, segs: seq<Seg>)
    requires Fit(segs, off, |st.disk|, |st.mem|)
    ensures AllLegal(CursorPlan(WRITE, off, segs), st)
    ensures DoAll(st, CursorPlan(WRITE, off, segs)) == Store(Splice(st.disk, off, Gather(st.mem, segs)), st.mem)
    decreases |segs|
  {
    if segs == [] {
      SpliceSame(st.disk, off, []);
    } else {
      CursorStep(WRITE, off, segs, st);
      WriteRefines(Do(st, Copy(WRITE, off, segs[0])), off + segs[0].len, segs[1..]);
      WrittenFirst(st, off, segs);
    }
  }

  lemma WrittenFirst(st: Store, off: nat, segs: seq<Seg>)
    requires segs != [] && Fit(segs, off, |st.disk|, |st.mem|)
    requires Fit(segs[1..], off + segs[0].len, |st.disk|, |st.mem|)
    ensures var st1 := Do(st, Copy(WRITE, off, segs[0]));
            && st1.mem == st.mem
            && Splice(st1.disk, off + segs[0].len, Gather(st.mem, segs[1..])) == Splice(st.disk, off, Gather(st.mem, segs))
  {
    SpliceTwice(st.disk, off, st.mem[segs[0].addr..segs[0].addr + segs[0].len], Gather(st.mem, segs[1..]));
  }

  lemma {:induction false} ReadRefines(st: Store, off: nat, segs: seq<Seg>)
    requires Fit(segs, off, |st.disk|, |st.mem|)
    ensures AllLegal(CursorPlan(READ, off, segs), st)
    ensures DoAll(st, CursorPlan(READ, off, segs)) == Store(st.disk, Loaded(st.mem, segs, st.disk, off))
    decreases |segs|
  {
    if segs != [] {
      CursorStep(READ, off, segs, st);
      ReadRefines(Do(st, Copy(READ, off, segs[0])), off + segs[0].len, segs[1..]);
      LoadedFirst(st.mem, segs, st.disk, off);
    }
  }

  lemma LoadedFirst(mem: seq<byte>, segs: seq<Seg>, disk: seq<byte>, off: nat)
    requires segs != []
    requires forall i :: 0 <= i < |segs| ==> segs[i].addr + segs[i].len <= |mem|
    requires off + Bytes(segs) <= |disk|
    ensures forall i :: 0 <= i < |segs[1..]| ==> segs[1..][i].addr + segs[1..][i].len <= |mem|
    ensures segs[0].addr + segs[0].len <= |mem| && off + segs[0].len + Bytes(segs[1..]) <= |disk|
    ensures Loaded(mem, segs, disk, off)
              == Loaded(Splice(mem, segs[0].addr, disk[off..off + segs[0].len]), segs[1..], disk, off + segs[0].len)
  {
  }

  lemma RefinesDisk(st: Store, dir: Dir, off: nat, segs: seq<Seg>)
    requires Fit(segs, off, |st.disk|, |st.mem|)
    ensures AllLegal(CursorPlan(dir, off, segs), st)
    ensures DoAll(st, CursorPlan(dir, off, segs)) == Transferred(st, dir, off, segs)
  {
    if dir == READ {
      ReadRefines(st, off, segs);
    } else {
      WriteRefines(st, off, segs);
    }
  }

  ghost predicate BiosFit(bs: seq<Bio>, disk: nat, mem: nat) {
    forall i :: 0 <= i < |bs| ==> Fit(bs[i].segs, bs[i].sector * SECTOR_SIZE, disk, mem)
  }

  /** Transfers applied to the abstract disk one after the other. */
  ghost function Sequential(st: Store, bs: seq<Bio>): (st': Store)
    requires BiosFit(bs, |st.disk|, |st.mem|)
    ensures |st'.disk| == |st.disk| && |st'.mem| == |st.mem|
    decreases |bs|
  {
    if bs == [] then st
    else Sequential(Transferred(st, bs[0].dir, bs[0].sector * SECTOR_SIZE, bs[0].segs), bs[1..])
  }

  /** The bio path refines the abstract disk. */
  lemma {:induction false} BiosRefine(st: Store, bs: seq<Bio>)
    requires BiosFit(bs, |st.disk|, |st.mem|)
    ensures AllLegal(BiosPlan(bs), st)
    ensures DoAll(st, BiosPlan(bs)) == Sequential(st, bs)
    decreases |bs|
  {
    if bs != [] {
      var b := bs[0];
      RefinesDisk(st, b.dir, b.sector * SECTOR_SIZE, b.segs);
      var st1 := DoAll(st, BioPlan(b));
      BiosRefine(st1, bs[1..]);
      DoAllConcat(st, BioPlan(b), BiosPlan(bs[1..]));
    }
  }

  /** What requests ask for, before any of their segments is done. */
  function Asked(rs: seq<Request>): (bs: seq<Bio>)
    ensures |bs| == |rs| && forall i :: 0 <= i < |rs| ==> bs[i] == Bio(rs[i].dir, rs[i].pos, rs[i].segs)
  {
    seq(|rs|, i requires 0 <= i < |rs| => Bio(rs[i].dir, rs[i].pos, rs[i].segs))
  }

  ghost predicate AllAligned(rs: seq<Request>) {
    forall i :: 0 <= i < |rs| ==> Aligned(rs[i].segs)
  }

  /** Over a whole queue: the sector counter follows the byte cursor exactly for aligned requests. */
  lemma {:induction false} QueueCursorsAgree(rs: seq<Request>)
    ensures QueuePlan(rs) == BiosPlan(Asked(rs)) <==> AllAligned(rs)
    decreases |rs|
  {
    if rs != [] {
      var r := rs[0];
      var a, b := SectorPlan(r), CursorPlan(r.dir, r.pos * SECTOR_SIZE, r.segs);
      CursorsAgree(r);
      QueueCursorsAgree(rs[1..]);
      assert Asked(rs)[1..] == Asked(rs[1..]);
      assert QueuePlan(rs) == a + QueuePlan(rs[1..]);
      assert BiosPlan(Asked(rs)) == b + BiosPlan(Asked(rs[1..]));
      SamePrefix(a, QueuePlan(rs[1..]), b, BiosPlan(Asked(rs[1..])));
      AllAlignedFirst(rs);
    }
  }

  lemma AllAlignedFirst(rs: seq<Request>)
    requires rs != []
    ensures AllAligned(rs) <==> Aligned(rs[0].segs) && AllAligned(rs[1..])
  {
    assert rs == [rs[0]] + rs[1..];
  }

  lemma SamePrefix(a: seq<Copy>, x: seq<Copy>, b: seq<Copy>, y: seq<Copy>)
    requires |a| == |b|
    ensures a + x == b + y <==> a == b && x == y
  {
    assert (a + x)[..|a|] == a && (a + x)[|a|..] == x;
    assert (b + y)[..|b|] == b && (b + y)[|b|..] == y;
  }

  /** The queue path refines the same abstract disk. */
  lemma QueueRefines(st: Store, rs: seq<Request>)
    requires QueueFits(rs, |st.disk|, |st.mem|) && AllAligned(rs)
    ensures AllLegal(QueuePlan(rs), st) && BiosFit(Asked(rs), |st.disk|, |st.mem|)
    ensures DoAll(st, QueuePlan(rs)) == Sequential(st, Asked(rs))
  {
    QueuePlanLegal(rs, st);
    QueueCursorsAgree(rs);
    BiosRefine(st, Asked(rs));
  }

  // ------------------------------------------------ both paths, end to end

  /** A bio the upper layers may submit. */
  ghost predicate GoodBio(b: Bio, disk: nat, mem: nat) {
    && Fit(b.segs, b.sector * SECTOR_SIZE, disk, mem)
    && b.segs != []
    && forall i :: 0 <= i < |b.segs| ==> b.segs[i].len > 0
  }

  ghost predicate GoodGroups(groups: seq<seq<Bio>>, disk: nat, mem: nat) {
    forall i :: 0 <= i < |groups| ==>
      && groups[i] != [] && GoodGroup(groups[i])
      && forall j :: 0 <= j < |groups[i]| ==> GoodBio(groups[i][j], disk, mem)
  }

  lemma {:induction false} BytesConcat(a: seq<Seg>, b: seq<Seg>)
    ensures Bytes(a + b) == Bytes(a) + Bytes(b)
    decreases |a|
  {
    if a == [] {
      assert a + b == b;
    } else {
      assert (a + b)[1..] == a[1..] + b;
      BytesConcat(a[1..], b);
    }
  }

  /** A request merged from good contiguous bios is one the driver can be handed. */
  lemma {:induction false} MergedFits(bs: seq<Bio>, disk: nat, mem: nat)
    requires bs != [] && Contiguous(bs)
    requires forall j :: 0 <= j < |bs| ==> GoodBio(bs[j], disk, mem)
    ensures WellFormed(Merge(bs)) && RequestFits(Merge(bs), disk, mem)
    decreases |bs|
  {
    var b, rest := bs[0], bs[1..];
    if rest == [] {
      assert SegsOf(bs) == b.segs;
    } else {
      assert forall j :: 0 <= j < |rest| ==> rest[j] == bs[j + 1];
      MergedFits(rest, disk, mem);
      BytesConcat(b.segs, SegsOf(rest));
      var segs := SegsOf(bs);
      forall i | 0 <= i < |segs|
        ensures segs[i].len > 0 && segs[i].addr + segs[i].len <= mem
      {
        assert segs[i] == if i < |b.segs| then b.segs[i] else SegsOf(rest)[i - |b.segs|];
      }
    }
  }

  lemma MergedReady(groups: seq<seq<Bio>>, disk: nat, mem: nat)
    requires GoodGroups(groups, disk, mem)
    ensures Ready(MergeAll(groups), disk, mem)
  {
    forall i | 0 <= i < |groups|
      ensures WellFormed(Merge(groups[i])) && RequestFits(Merge(groups[i]), disk, mem)
    {
      MergedFits(groups[i], disk, mem);
    }
  }

  lemma {:induction false} FlattenFits(groups: seq<seq<Bio>>, disk: nat, mem: nat)
    requires GoodGroups(groups, disk, mem)
    ensures BiosFit(Flatten(groups), disk, mem)
    decreases |groups|
  {
    if groups != [] {
      FlattenFits(groups[1..], disk, mem);
    }
  }

  /**
  End to end: bios merged and drained from a queue on one disk, the same bios
  submitted one by one to another that starts out equal. Both disks and both
  memories end up equal, and as the abstract disk says.
  */
  method BothPaths(queued: VirtDisk, direct: VirtDisk, rq: RequestQueue, ghost groups: seq<seq<Bio>>, bios: seq<Bio>)
    requires queued.buffer != queued.ram && direct.buffer != direct.ram
    requires {queued.buffer, queued.ram} !! {direct.buffer, direct.ram}
    requires queued.State() == direct.State()
    requires GoodGroups(groups, queued.buffer.Length, queued.ram.Length)
    requires rq.cur == None && rq.pending == MergeAll(groups) && bios == Flatten(groups)
    modifies rq, queued.buffer, queued.ram, direct.buffer, direct.ram
    ensures queued.State() == direct.State()
    ensures BiosFit(bios, queued.buffer.Length, queued.ram.Length)
    ensures direct.State() == Sequential(old(direct.State()), bios)
  {
    ghost var st := queued.State();
    assert |st.disk| == queued.buffer.Length == direct.buffer.Length;
    assert |st.mem| == queued.ram.Length == direct.ram.Length;
    MergedReady(groups, |st.disk|, |st.mem|);
    FlattenFits(groups, |st.disk|, |st.mem|);
    PathsEquivalent(groups);
    BiosRefine(st, bios);
    queued.DrainQueue(rq);
    SubmitAll(direct, bios);
  }

  predicate Apart(a: Seg, b: Seg) {
    a.addr + a.len <= b.addr || b.addr + b.len <= a.addr
  }

  ghost predicate Disjoint(segs: seq<Seg>) {
    forall i, j :: 0 <= i < j < |segs| ==> Apart(segs[i], segs[j])
  }

  /** A byte of memory outside all segments keeps its value. */
  lemma {:induction false} LoadedAt(mem: seq<byte>, segs: seq<Seg>, disk: seq<byte>, off: nat, k: nat)
    requires forall i :: 0 <= i < |segs| ==> segs[i].addr + segs[i].len <= |mem|
    requires forall i :: 0 <= i < |segs| ==> k < segs[i].addr || segs[i].addr + segs[i].len <= k
    requires off + Bytes(segs) <= |disk| && k < |mem|
    ensures Loaded(mem, segs, disk, off)[k] == mem[k]
    decreases |segs|
  {
    if segs != [] {
      var n := segs[0].len;
      LoadedAt(Splice(mem, segs[0].addr, disk[off..off + n]), segs[1..], disk, off + n, k);
    }
  }

  lemma LoadedFrame(mem: seq<byte>, segs: seq<Seg>, disk: seq<byte>, off: nat, a: Seg)
    requires forall i :: 0 <= i < |segs| ==> segs[i].addr + segs[i].len <= |mem| && Apart(a, segs[i])
    requires off + Bytes(segs) <= |disk| && a.addr + a.len <= |mem|
    ensures Loaded(mem, segs, disk, off)[a.addr..a.addr + a.len] == mem[a.addr..a.addr + a.len]
  {
    forall k | a.addr <= k < a.addr + a.len
      ensures Loaded(mem, segs, disk, off)[k] == mem[k]
    {
      assert forall i :: 0 <= i < |segs| ==> Apart(a, segs[i]);
      LoadedAt(mem, segs, disk, off, k);
    }
  }

  lemma DisjointTail(segs: seq<Seg>)
    requires Disjoint(segs) && segs != []
    ensures Disjoint(segs[1..])
    ensures forall i :: 0 <= i < |segs[1..]| ==> Apart(segs[0], segs[1..][i])
  {
    var rest := segs[1..];
    assert forall i :: 0 <= i < |rest| ==> rest[i] == segs[i + 1];
  }

  /** The first segment keeps what it got while the others are filled. */
  lemma HeadKept(mem: seq<byte>, segs: seq<Seg>, disk: seq<byte>, off: nat)
    requires forall i :: 0 <= i < |segs| ==> segs[i].addr + segs[i].len <= |mem|
    requires off + Bytes(segs) <= |disk| && Disjoint(segs) && segs != []
    ensures Loaded(mem, segs, disk, off)[segs[0].addr..segs[0].addr + segs[0].len] == disk[off..off + segs[0].len]
  {
    var n := segs[0].len;
    DisjointTail(segs);
    LoadedFirst(mem, segs, disk, off);
    LoadedFrame(Splice(mem, segs[0].addr, disk[off..off + n]), segs[1..], disk, off + n, segs[0]);
  }

  lemma GatherFirst(mem: seq<byte>, segs: seq<Seg>)
    requires segs != []
    requires forall i :: 0 <= i < |segs| ==> segs[i].addr + segs[i].len <= |mem|
    requires forall i :: 0 <= i < |segs[1..]| ==> segs[1..][i].addr + segs[1..][i].len <= |mem|
    ensures segs[0].addr + segs[0].len <= |mem|
    ensures Gather(mem, segs) == mem[segs[0].addr..segs[0].addr + segs[0].len] + Gather(mem, segs[1..])
  {
  }

  lemma JoinSlices(s: seq<byte>, at: nat, n: nat, m: nat)
    requires at + n + m <= |s|
    ensures s[at..at + n] + s[at + n..at + n + m] == s[at..at + n + m]
  {
  }

  /** Segments that do not overlap hold, after a read, the stretch of disk that was read. */
  lemma {:induction false} GatherLoaded(mem: seq<byte>, segs: seq<Seg>, disk: seq<byte>, off: nat)
    requires forall i :: 0 <= i < |segs| ==> segs[i].addr + segs[i].len <= |mem|
    requires off + Bytes(segs) <= |disk| && Disjoint(segs)
    ensures Gather(Loaded(mem, segs, disk, off), segs) == disk[off..off + Bytes(segs)]
    decreases |segs|
  {
    if segs != [] {
      var n := segs[0].len;
      DisjointTail(segs);
      LoadedFirst(mem, segs, disk, off);
      HeadKept(mem, segs, disk, off);
      GatherLoaded(Splice(mem, segs[0].addr, disk[off..off + n]), segs[1..], disk, off + n);
      GatherFirst(Loaded(mem, segs, disk, off), segs);
      JoinSlices(disk, off, n, Bytes(segs[1..]));
    }
  }

  lemma TwoTransfers(st: Store, a: Bio, b: Bio)
    requires BiosFit([a, b], |st.disk|, |st.mem|)
    ensures Fit(a.segs, a.sector * SECTOR_SIZE, |st.disk|, |st.mem|)
    ensures Fit(b.segs, b.sector * SECTOR_SIZE, |st.disk|, |st.mem|)
    ensures Sequential(st, [a, b])
              == Transferred(Transferred(st, a.dir, a.sector * SECTOR_SIZE, a.segs), b.dir, b.sector * SECTOR_SIZE, b.segs)
  {
    assert [a, b][0] == a && [a, b][1] == b && [a, b][1..] == [b] && [b][1..] == [];
    var st1 := Transferred(st, a.dir, a.sector * SECTOR_SIZE, a.segs);
    assert Sequential(st1, [b]) == Transferred(st1, b.dir, b.sector * SECTOR_SIZE, b.segs);
  }

  /**
  Round trip: write from any segments, then read the same place into any segments
  that do not overlap. The reader holds what the writer held, on the bio path always
  and on the queue path if both requests are aligned.
  */
  lemma ReadAfterWrite(st: Store, w: Request, r: Request)
    requires w.dir == WRITE && r.dir == READ && w.pos == r.pos && Bytes(w.segs) == Bytes(r.segs) && Disjoint(r.segs)
    requires RequestFits(w, |st.disk|, |st.mem|) && RequestFits(r, |st.disk|, |st.mem|)
    ensures var bios := BiosPlan(Asked([w, r]));
            AllLegal(bios, st) && Gather(DoAll(st, bios).mem, r.segs) == Gather(st.mem, w.segs)
    ensures Aligned(w.segs) && Aligned(r.segs) ==>
              var queue := QueuePlan([w, r]);
              AllLegal(queue, st) && Gather(DoAll(st, queue).mem, r.segs) == Gather(st.mem, w.segs)
  {
    var bs := Asked([w, r]);
    var off := w.pos * SECTOR_SIZE;
    BiosRefine(st, bs);
    var st1 := Transferred(st, WRITE, off, w.segs);
    assert bs == [bs[0], bs[1]];
    TwoTransfers(st, bs[0], bs[1]);
    GatherLoaded(st1.mem, r.segs, st1.disk, off);
    QueueCursorsAgree([w, r]);
  }
}
