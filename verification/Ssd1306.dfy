/**
The SSD1306 framebuffer. The panel keeps a second copy of video memory in its own
RAM, filled through an address pointer that the panel advances and wraps by itself;
the driver programs the pointer's window once and then relies on every push of a
whole frame bringing it back to the start.

The panel follows the SSD1306 data sheet: commands 20h, 21h and 22h select the
addressing mode and the window, a message starting 80h carries one command byte and
one starting 40h carries data. The other commands the driver sends do not touch
the pointer. I2C transfers succeed, and each driver call is atomic.
*/
module Ssd1306 {
  import opened Arithmetic
  import opened Memory
  import opened Kernel

  // --------------------------------------------------------------- the panel

  /** `cmd` holds a command still waiting for arguments; `regs` the last arguments of the rest. */
  datatype Panel = Panel(
    ram: seq<seq<byte>>,
    mode: nat,
    colStart: nat, colEnd: nat, pageStart: nat, pageEnd: nat,
    col: nat, page: nat,
    cmd: seq<byte>,
    on: bool,
    regs: map<byte, byte>)

  predicate PanelOk(p: Panel, cols: nat, pages: nat) {
    && |p.ram| == pages
    && (forall i :: 0 <= i < pages ==> |p.ram[i]| == cols)
    && p.col < cols && p.page < pages
    && p.colStart < cols && p.colEnd < cols && p.pageStart < pages && p.pageEnd < pages
  }

  /** Argument bytes of the commands the driver uses. */
  function ArgCount(c: byte): nat {
    if c == 0x21 || c == 0x22 then 2
    else if c in {0x20, 0x81, 0xa8, 0xd3, 0xd5, 0xd9, 0xda, 0xdb, 0x8d} then 1
    else 0
  }

  /** A command that is still open lacks an argument. */
  predicate CmdOk(p: Panel) {
    p.cmd != [] ==> |p.cmd| <= ArgCount(p.cmd[0])
  }

  /** A complete command, arguments included. */
  function Execute(p: Panel, cmd: seq<byte>, cols: nat, pages: nat): Panel
    requires cmd != [] && |cmd| == 1 + ArgCount(cmd[0]) && cols > 0 && pages > 0
  {
    var q := p.(cmd := []);
    if cmd[0] == 0x20 then q.(mode := cmd[1] % 4)
    else if cmd[0] == 0x21 then q.(colStart := cmd[1] % cols, colEnd := cmd[2] % cols, col := cmd[1] % cols)
    else if cmd[0] == 0x22 then q.(pageStart := cmd[1] % pages, pageEnd := cmd[2] % pages, page := cmd[1] % pages)
    else if cmd[0] == 0xae then q.(on := false)
    else if cmd[0] == 0xaf then q.(on := true)
    else q.(regs := p.regs[cmd[0] := if |cmd| > 1 then cmd[1] else 0])
  }

  function CommandByte(p: Panel, b: byte, cols: nat, pages: nat): Panel
    requires cols > 0 && pages > 0
  {
    var cmd := p.cmd + [b];
    if |cmd| == 1 + ArgCount(cmd[0]) then Execute(p, cmd, cols, pages) else p.(cmd := cmd)
  }

  function Poke(ram: seq<seq<byte>>, page: nat, col: nat, b: byte): seq<seq<byte>>
    requires page < |ram| && col < |ram[page]|
  {
    var row: seq<byte> := ram[page][col := b];
    ram[page := row]
  }

  /** The pointer after one data byte: horizontal, vertical or page addressing. */
  function Stepped(p: Panel, cols: nat, pages: nat): (p': Panel)
    requires PanelOk(p, cols, pages)
    ensures PanelOk(p', cols, pages)
  {
    var nextCol := if p.col == p.colEnd then p.colStart else (p.col + 1) % cols;
    var nextPage := if p.page == p.pageEnd then p.pageStart else (p.page + 1) % pages;
    if p.mode == 0 then p.(col := nextCol, page := if p.col == p.colEnd then nextPage else p.page)
    else if p.mode == 1 then p.(page := nextPage, col := if p.page == p.pageEnd then nextCol else p.col)
    else p.(col := nextCol)
  }

  function DataByte(p: Panel, b: byte, cols: nat, pages: nat): (p': Panel)
    requires PanelOk(p, cols, pages)
    ensures PanelOk(p', cols, pages)
  {
    Stepped(p.(ram := Poke(p.ram, p.page, p.col, b)), cols, pages)
  }

  function DataBytes(p: Panel, data: seq<byte>, cols: nat, pages: nat): (p': Panel)
    requires PanelOk(p, cols, pages)
    ensures PanelOk(p', cols, pages)
    decreases |data|
  {
    if data == [] then p else DataBytes(DataByte(p, data[0], cols, pages), data[1..], cols, pages)
  }

  /** One I2C message: the control byte says what follows. */
  function Receive(p: Panel, msg: seq<byte>, cols: nat, pages: nat): Panel
    requires PanelOk(p, cols, pages) && cols > 0 && pages > 0 && |msg| >= 1
  {
    if msg[0] == 0x40 then DataBytes(p, msg[1..], cols, pages)
    else if msg[0] == 0x80 && |msg| == 2 then CommandByte(p, msg[1], cols, pages)
    else p
  }

  function ThreeBytes(p: Panel, a: byte, b: byte, c: byte, cols: nat, pages: nat): Panel
    requires cols > 0 && pages > 0
  {
    CommandByte(CommandByte(CommandByte(p, a, cols, pages), b, cols, pages), c, cols, pages)
  }

  lemma RangeCommands(p: Panel, hi: byte, cols: nat, pages: nat)
    requires p.cmd == [] && cols > 0 && pages > 0
    ensures hi < cols ==> ThreeBytes(p, 0x21, 0, hi, cols, pages) == p.(colStart := 0, colEnd := hi, col := 0)
    ensures hi < pages ==> ThreeBytes(p, 0x22, 0, hi, cols, pages) == p.(pageStart := 0, pageEnd := hi, page := 0)
  {
    assert p.cmd + [0x21] == [0x21] && [0x21] + [0] == [0x21, 0] && [0x21, 0] + [hi] == [0x21, 0, hi];
    assert p.cmd + [0x22] == [0x22] && [0x22] + [0] == [0x22, 0] && [0x22, 0] + [hi] == [0x22, 0, hi];
    if hi < cols {
      ModUnique(0, cols, 0, 0);
      ModUnique(hi, cols, 0, hi);
    }
    if hi < pages {
      ModUnique(0, pages, 0, 0);
      ModUnique(hi, pages, 0, hi);
    }
  }

  // ------------------------------------------------- what a full push achieves

  /** The window is w by hp pages from the origin, filled row by row, and no command is open. */
  predicate Programmed(p: Panel, w: nat, hp: nat) {
    p.mode == 0 && p.cmd == [] && p.colStart == 0 && p.colEnd + 1 == w && p.pageStart == 0 && p.pageEnd + 1 == hp
  }

  lemma CellInFrame(w: nat, hp: nat, page: nat, col: nat)
    requires page < hp && col < w
    ensures page * w + col < w * hp
  {
    assert (page + 1) * w <= hp * w;
    assert (page + 1) * w == page * w + w;
  }

  /** Cells before (page, col) in reading order show their bytes of the frame. */
  ghost predicate ShownTo(ram: seq<seq<byte>>, frame: seq<byte>, w: nat, hp: nat, page: nat, col: nat)
    requires |frame| == w * hp && |ram| >= hp
    requires forall i :: 0 <= i < |ram| ==> |ram[i]| >= w
  {
    forall q, c :: 0 <= q < hp && 0 <= c < w && (q < page || (q == page && c < col)) ==>
      (CellInFrame(w, hp, q, c); ram[q][c] == frame[q * w + c])
  }

  ghost predicate Shows(ram: seq<seq<byte>>, frame: seq<byte>, w: nat, hp: nat)
    requires |frame| == w * hp && |ram| >= hp
    requires forall i :: 0 <= i < |ram| ==> |ram[i]| >= w
  {
    ShownTo(ram, frame, w, hp, hp, 0)
  }

  /** One more byte in place. */
  lemma ShownNext(ram: seq<seq<byte>>, frame: seq<byte>, w: nat, hp: nat, page: nat, col: nat)
    requires |frame| == w * hp && |ram| >= hp && page < hp && col < w
    requires forall i :: 0 <= i < |ram| ==> |ram[i]| >= w
    requires page * w + col < |frame|
    requires ShownTo(ram, frame, w, hp, page, col)
    ensures ShownTo(Poke(ram, page, col, frame[page * w + col]), frame, w, hp, page, col + 1)
  {
    var ram' := Poke(ram, page, col, frame[page * w + col]);
    forall q, c | 0 <= q < hp && 0 <= c < w && (q < page || (q == page && c < col + 1))
      ensures q * w + c < |frame| && ram'[q][c] == frame[q * w + c]
    {
      CellInFrame(w, hp, q, c);
      if q != page || c != col {
        assert ram'[q][c] == ram[q][c];
      }
    }
  }

  lemma ShownRow(ram: seq<seq<byte>>, frame: seq<byte>, w: nat, hp: nat, page: nat)
    requires |frame| == w * hp && |ram| >= hp && page < hp
    requires forall i :: 0 <= i < |ram| ==> |ram[i]| >= w
    requires ShownTo(ram, frame, w, hp, page, w)
    ensures ShownTo(ram, frame, w, hp, page + 1, 0)
  {
  }

  /** Where the pointer goes inside the programmed window. */
  lemma PointerMoves(p: Panel, b: byte, w: nat, hp: nat, cols: nat, pages: nat)
    requires PanelOk(p, cols, pages) && Programmed(p, w, hp) && w <= cols && hp <= pages
    requires p.col < w && p.page < hp
    ensures var p' := DataByte(p, b, cols, pages);
            && Programmed(p', w, hp) && p'.on == p.on && p'.regs == p.regs
            && p'.ram == Poke(p.ram, p.page, p.col, b)
            && p'.col == (if p.col + 1 < w then p.col + 1 else 0)
            && p'.page == (if p.col + 1 < w then p.page else if p.page + 1 < hp then p.page + 1 else 0)
  {
    if p.col + 1 < w {
      ModUnique(p.col + 1, cols, 0, p.col + 1);
    }
    if p.page + 1 < hp {
      ModUnique(p.page + 1, pages, 0, p.page + 1);
    }
  }

  /** The byte index keeps step with the pointer. */
  lemma IndexMoves(w: nat, hp: nat, page: nat, col: nat)
    requires page < hp && col < w
    ensures page * w + col < w * hp
    ensures col + 1 == w ==> page * w + col + 1 == (page + 1) * w
    ensures col + 1 == w && page + 1 == hp ==> page * w + col + 1 == w * hp
  {
    CellInFrame(w, hp, page, col);
    assert (page + 1) * w == page * w + w;
    assert hp * w == w * hp;
  }

  ghost predicate FrameDone(p: Panel, p': Panel, frame: seq<byte>, w: nat, hp: nat, cols: nat, pages: nat)
    requires PanelOk(p', cols, pages) && w <= cols && hp <= pages && |frame| == w * hp
  {
    && Programmed(p', w, hp) && p'.col == 0 && p'.page == 0
    && Shows(p'.ram, frame, w, hp)
    && p'.on == p.on && p'.regs == p.regs
  }

  /** From any point of the frame on: the rest of the bytes fill the rest of the cells and wrap the pointer. */
  lemma {:induction false} PushRest(p: Panel, frame: seq<byte>, at: nat, w: nat, hp: nat, cols: nat, pages: nat)
    requires PanelOk(p, cols, pages) && Programmed(p, w, hp) && w <= cols && hp <= pages && |frame| == w * hp
    requires p.col < w && p.page < hp && p.page * w + p.col == at < |frame|
    requires ShownTo(p.ram, frame, w, hp, p.page, p.col)
    ensures FrameDone(p, DataBytes(p, frame[at..], cols, pages), frame, w, hp, cols, pages)
    decreases |frame| - at
  {
    var p1 := DataByte(p, frame[at], cols, pages);
    PointerMoves(p, frame[at], w, hp, cols, pages);
    ShownNext(p.ram, frame, w, hp, p.page, p.col);
    IndexMoves(w, hp, p.page, p.col);
    DataFirst(p, frame, at, cols, pages);
    if p.col + 1 < w {
      IndexMoves(w, hp, p.page, p.col + 1);
      PushRest(p1, frame, at + 1, w, hp, cols, pages);
    } else {
      ShownRow(p1.ram, frame, w, hp, p.page);
      if p.page + 1 < hp {
        IndexMoves(w, hp, p.page + 1, 0);
        PushRest(p1, frame, at + 1, w, hp, cols, pages);
      }
    }
  }

  lemma DataFirst(p: Panel, frame: seq<byte>, at: nat, cols: nat, pages: nat)
    requires PanelOk(p, cols, pages) && at < |frame|
    ensures DataBytes(p, frame[at..], cols, pages)
              == DataBytes(DataByte(p, frame[at], cols, pages), frame[at + 1..], cols, pages)
    ensures at + 1 == |frame| ==> DataBytes(p, frame[at..], cols, pages) == DataByte(p, frame[at], cols, pages)
  {
    assert frame[at..][1..] == frame[at + 1..];
  }

  /** A whole frame pushed from the origin fills the window and leaves the pointer at the origin. */
  lemma PushFrame(p: Panel, frame: seq<byte>, w: nat, hp: nat, cols: nat, pages: nat)
    requires PanelOk(p, cols, pages) && Programmed(p, w, hp) && 0 < w <= cols && 0 < hp <= pages
    requires p.col == 0 && p.page == 0 && |frame| == w * hp
    ensures FrameDone(p, DataBytes(p, frame, cols, pages), frame, w, hp, cols, pages)
  {
    IndexMoves(w, hp, 0, 0);
    PushRest(p, frame, 0, w, hp, cols, pages);
    assert frame[0..] == frame;
  }

  // -------------------------------------------------------- abstract driver

  /** w by 8*hp pixels on a panel of cols by pages. */
  datatype Geo = Geo(w: nat, hp: nat, cols: nat, pages: nat)

  predicate GeoOk(g: Geo) {
    0 < g.w <= g.cols <= 256 && 0 < g.hp <= g.pages && g.hp * 8 <= 256
  }

  /**
  `dirty`: a page stored to through mmap waits for deferred i/o. `faulted`: a write
  stopped half-way since the last push.
  */
  datatype Fb = Fb(vmem: seq<byte>, panel: Panel, dirty: bool, faulted: bool)

  /** Programmed, pointer at the origin. */
  ghost predicate Ready(g: Geo, f: Fb) {
    && |f.vmem| == g.w * g.hp
    && PanelOk(f.panel, g.cols, g.pages)
    && Programmed(f.panel, g.w, g.hp)
    && f.panel.col == 0 && f.panel.page == 0
  }

  /** The window on the panel is video memory, cell by cell. */
  ghost predicate Coherent(g: Geo, f: Fb)
    requires GeoOk(g) && Ready(g, f)
  {
    Shows(f.panel.ram, f.vmem, g.w, g.hp)
  }

  /** ssd1306fb_display: one data message of the whole of video memory. */
  function Displayed(g: Geo, f: Fb): Fb
    requires GeoOk(g) && PanelOk(f.panel, g.cols, g.pages)
  {
    f.(panel := Receive(f.panel, [0x40] + f.vmem, g.cols, g.pages), faulted := false)
  }

  /** Bytes of the user's buffer a write covers. */
  function Covered(total: nat, pos: nat, count: nat): nat {
    if pos > total then 0 else if count + pos > total then total - pos else count
  }

  /** ssd1306fb_write when the user buffer is readable for `readable` bytes. */
  function Written(g: Geo, f: Fb, pos: nat, buf: seq<byte>, readable: nat): (Fb, int, nat)
    requires GeoOk(g) && PanelOk(f.panel, g.cols, g.pages)
  {
    var count := Covered(|f.vmem|, pos, |buf|);
    if count == 0 then (f, -EINVAL, pos)
    else if readable < count then
      (f.(vmem := Splice(f.vmem, pos, CopiedFromUser(buf, count, readable)), faulted := true), -EFAULT, pos)
    else
      (Displayed(g, f.(vmem := Splice(f.vmem, pos, buf[..count]))), count, pos + count)
  }

  datatype Op =
    | WriteOp(pos: nat, buf: seq<byte>, readable: nat)
    | BlitOp(image: seq<byte>)
    | StoreOp(at: nat, b: byte)
    | DeferredOp
    | BlankOp(unblank: bool)

  /** What the rest of the kernel guarantees about a call. */
  predicate Callable(f: Fb, op: Op) {
    match op
    case BlitOp(image) => |image| == |f.vmem|
    case StoreOp(at, _) => at < |f.vmem|
    case DeferredOp => f.dirty
    case _ => true
  }

  function Apply(g: Geo, f: Fb, op: Op): Fb
    requires GeoOk(g) && PanelOk(f.panel, g.cols, g.pages) && Callable(f, op)
  {
    match op
    case WriteOp(pos, buf, readable) => Written(g, f, pos, buf, readable).0
    case BlitOp(image) => Displayed(g, f.(vmem := image))
    case StoreOp(at, b) => f.(vmem := Splice(f.vmem, at, [b]), dirty := true)
    case DeferredOp => Displayed(g, f.(dirty := false))
    case BlankOp(unblank) => f.(panel := CommandByte(f.panel, if unblank then 0xaf else 0xae, g.cols, g.pages))
  }

  /** A push makes the panel coherent, whatever came before, and leaves it ready for the next. */
  lemma DisplayCoheres(g: Geo, f: Fb)
    requires GeoOk(g) && Ready(g, f)
    ensures Ready(g, Displayed(g, f)) && Coherent(g, Displayed(g, f))
    ensures Displayed(g, f).panel.on == f.panel.on && Displayed(g, f).panel.regs == f.panel.regs
  {
    assert ([0x40] + f.vmem)[1..] == f.vmem;
    PushFrame(f.panel, f.vmem, g.w, g.hp, g.cols, g.pages);
  }

  /** Nothing pending and no half-done write: the panel shows video memory. */
  ghost predicate FbInv(g: Geo, f: Fb) {
    GeoOk(g) && Ready(g, f) && (!f.dirty && !f.faulted ==> Coherent(g, f))
  }

  lemma BlankKeeps(g: Geo, f: Fb, unblank: bool)
    requires GeoOk(g) && Ready(g, f)
    ensures var f' := Apply(g, f, BlankOp(unblank));
            f' == f.(panel := f.panel.(on := unblank))
  {
  }

  lemma OpKeepsInv(g: Geo, f: Fb, op: Op)
    requires FbInv(g, f) && Callable(f, op)
    ensures FbInv(g, Apply(g, f, op))
  {
    match op
    case WriteOp(pos, buf, readable) =>
      var count := Covered(|f.vmem|, pos, |buf|);
      if 0 < count <= readable {
        DisplayCoheres(g, f.(vmem := Splice(f.vmem, pos, buf[..count])));
      }
    case BlitOp(image) => DisplayCoheres(g, f.(vmem := image));
    case StoreOp(at, b) =>
    case DeferredOp => DisplayCoheres(g, f.(dirty := false));
    case BlankOp(unblank) => BlankKeeps(g, f, unblank);
  }

  ghost predicate CanRun(g: Geo, f: Fb, ops: seq<Op>)
    requires GeoOk(g)
    decreases |ops|
  {
    ops == [] ||
    (PanelOk(f.panel, g.cols, g.pages) && Callable(f, ops[0]) && CanRun(g, Apply(g, f, ops[0]), ops[1..]))
  }

  ghost function Run(g: Geo, f: Fb, ops: seq<Op>): Fb
    requires GeoOk(g) && CanRun(g, f, ops)
    decreases |ops|
  {
    if ops == [] then f else Run(g, Apply(g, f, ops[0]), ops[1..])
  }

  /** Over every run of writes, blits, mmap stores, deferred i/o and blanking. */
  lemma {:induction false} CoherentOverRun(g: Geo, f: Fb, ops: seq<Op>)
    requires FbInv(g, f) && CanRun(g, f, ops)
    ensures FbInv(g, Run(g, f, ops))
    decreases |ops|
  {
    if ops != [] {
      OpKeepsInv(g, f, ops[0]);
      CoherentOverRun(g, Apply(g, f, ops[0]), ops[1..]);
    }
  }

  lemma MulBelow(w: nat, q: nat, hp: nat)
    requires w * q < w * hp
    ensures q < hp
  {
    if q >= hp {
      MulMono(hp, q, w);
    }
  }

  /** Where byte i of a frame is. */
  lemma CellOf(w: nat, hp: nat, i: nat)
    requires w > 0 && i < w * hp
    ensures i / w < hp && 0 <= i % w < w && (i / w) * w + i % w == i
  {
    var q, c := i / w, i % w;
    assert i == w * q + c;
    MulBelow(w, q, hp);
    assert q * w == w * q;
  }

  lemma ShownOnce(ram: seq<seq<byte>>, a: seq<byte>, b: seq<byte>, w: nat, hp: nat)
    requires |a| == |b| == w * hp && w > 0 && |ram| >= hp
    requires forall i :: 0 <= i < |ram| ==> |ram[i]| >= w
    requires Shows(ram, a, w, hp) && Shows(ram, b, w, hp)
    ensures a == b
  {
    forall i | 0 <= i < |a|
      ensures a[i] == b[i]
    {
      CellOf(w, hp, i);
      var q, c := i / w, i % w;
      assert ram[q][c] == a[q * w + c];
    }
  }

  /** A write that stops half-way because the user's buffer does. */
  predicate Faults(f: Fb, op: Op) {
    op.WriteOp? && op.readable < Covered(|f.vmem|, op.pos, |op.buf|)
  }

  /** What a faulting write stores is what video memory holds there already. */
  predicate Harmless(f: Fb, op: Op)
    requires Faults(f, op)
  {
    var n := Covered(|f.vmem|, op.pos, |op.buf|);
    f.vmem[op.pos..op.pos + n] == op.buf[..op.readable] + Repeat(0, n - op.readable)
  }

  /**
  A write that faults returns without a push. It leaves a coherent panel coherent
  exactly when the readable bytes, and zeros for the rest, are already there.
  */
  lemma FaultedWriteCoherentIff(g: Geo, f: Fb, op: Op)
    requires GeoOk(g) && Ready(g, f) && Coherent(g, f) && Faults(f, op)
    ensures Ready(g, Apply(g, f, op))
    ensures Coherent(g, Apply(g, f, op)) <==> Harmless(f, op)
  {
    var f' := Apply(g, f, op);
    SpliceSame(f.vmem, op.pos, CopiedFromUser(op.buf, Covered(|f.vmem|, op.pos, |op.buf|), op.readable));
    if Coherent(g, f') {
      ShownOnce(f.panel.ram, f.vmem, f'.vmem, g.w, g.hp);
    }
  }

  /** A write of two bytes that faults after the first: no page is dirty and the panel is out of date. */
  lemma FaultedWriteBreaks(p: Panel)
    requires p.ram == [[0, 0]] && PanelOk(p, 2, 1) && Programmed(p, 2, 1) && p.col == p.page == 0
    ensures var g := Geo(2, 1, 2, 1);
            var f := Fb([0, 0], p, false, false);
            var f' := Apply(g, f, WriteOp(0, [1, 1], 1));
            FbInv(g, f) && Coherent(g, f) && Ready(g, f') && !f'.dirty && !Coherent(g, f')
  {
    var g := Geo(2, 1, 2, 1);
    var f := Fb([0, 0], p, false, false);
    var op := WriteOp(0, [1, 1], 1);
    FaultedWriteCoherentIff(g, f, op);
    assert f.vmem[0..2][0] != (op.buf[..1] + Repeat(0, 1))[0];
  }

  /** Nothing pending, so the panel should show video memory. */
  ghost predicate CleanCoherent(g: Geo, f: Fb)
    requires GeoOk(g)
  {
    Ready(g, f) && (!f.dirty ==> Coherent(g, f))
  }

  ghost predicate AlwaysCoherent(g: Geo, f: Fb, ops: seq<Op>)
    requires GeoOk(g) && CanRun(g, f, ops)
    decreases |ops|
  {
    CleanCoherent(g, f) && (ops != [] ==> AlwaysCoherent(g, Apply(g, f, ops[0]), ops[1..]))
  }

  /** Every write of the run that faults while no page is dirty stores nothing new. */
  ghost predicate FaultsHarmless(g: Geo, f: Fb, ops: seq<Op>)
    requires GeoOk(g) && CanRun(g, f, ops)
    decreases |ops|
  {
    ops != [] ==>
      && (Faults(f, ops[0]) && !f.dirty ==> Harmless(f, ops[0]))
      && FaultsHarmless(g, Apply(g, f, ops[0]), ops[1..])
  }

  lemma StepCoherentIff(g: Geo, f: Fb, op: Op)
    requires GeoOk(g) && CleanCoherent(g, f) && Callable(f, op)
    ensures CleanCoherent(g, Apply(g, f, op)) <==> (Faults(f, op) && !f.dirty ==> Harmless(f, op))
  {
    if Faults(f, op) {
      if !f.dirty {
        FaultedWriteCoherentIff(g, f, op);
      }
    } else {
      OpKeepsInv(g, f.(faulted := false), op);
    }
  }

  /**
  In every state of a run the panel shows video memory whenever no page is dirty, if
  and only if no write that faulted on a clean display stored anything new.
  */
  lemma {:induction false} AlwaysCoherentIff(g: Geo, f: Fb, ops: seq<Op>)
    requires GeoOk(g) && CleanCoherent(g, f) && CanRun(g, f, ops)
    ensures AlwaysCoherent(g, f, ops) <==> FaultsHarmless(g, f, ops)
    decreases |ops|
  {
    if ops != [] {
      var f1 := Apply(g, f, ops[0]);
      StepCoherentIff(g, f, ops[0]);
      if CleanCoherent(g, f1) {
        AlwaysCoherentIff(g, f1, ops[1..]);
      }
    }
  }

  // --------------------------------------------------- what users get to see

  /** Room between pos and the end, as far as the buffer fills it. */
  function Room(total: nat, pos: nat, count: nat): (n: nat)
    ensures n <= count && (n > 0 ==> pos + n <= total)
    ensures n < count ==> n == 0 || pos + n == total
    ensures n == 0 ==> count == 0 || pos >= total
  {
    if pos >= total then 0 else if count < total - pos then count else total - pos
  }

  /**
  The driver before and after a write, its result and the file position. What the
  user's buffer holds is stored, pushed and counted; a buffer that faults is stored as
  far as it goes, with zeros behind, and not pushed.
  */
  ghost predicate Stored(g: Geo, f: Fb, f': Fb, buf: seq<byte>, pos: nat, readable: nat, ret: int, pos': nat)
    requires GeoOk(g)
  {
    var n := Room(|f.vmem|, pos, |buf|);
    && |f'.vmem| == |f.vmem| && f'.dirty == f.dirty
    && ret == (if n == 0 then -EINVAL else if readable < n then -EFAULT else n)
    && pos' == (if ret > 0 then pos + n else pos)
    && (ret > 0 ==> f'.vmem[pos..pos + n] == buf[..n])
    && (forall i :: 0 <= i < |f.vmem| ==>
          f'.vmem[i] == if !(pos <= i < pos + n) then f.vmem[i] else if i - pos < readable then buf[i - pos] else 0)
    && (ret < 0 ==> f'.panel == f.panel)
    && (ret > 0 && Ready(g, f) ==> Ready(g, f') && Coherent(g, f'))
  }

  lemma WrittenStores(g: Geo, f: Fb, pos: nat, buf: seq<byte>, readable: nat)
    requires GeoOk(g) && PanelOk(f.panel, g.cols, g.pages)
    ensures var (f', ret, pos') := Written(g, f, pos, buf, readable);
            Stored(g, f, f', buf, pos, readable, ret, pos')
  {
    var n := Covered(|f.vmem|, pos, |buf|);
    assert n == Room(|f.vmem|, pos, |buf|);
    if n > 0 {
      var data := CopiedFromUser(buf, n, readable);
      var s := Splice(f.vmem, pos, data);
      SplicedAt(f.vmem, pos, data);
      if n <= readable && Ready(g, f) {
        DisplayCoheres(g, f.(vmem := s));
      }
    }
  }

  lemma SplicedAt(dst: seq<byte>, at: nat, data: seq<byte>)
    requires at + |data| <= |dst|
    ensures forall i :: at <= i < at + |data| ==> Splice(dst, at, data)[i] == data[i - at]
  {
    var s := Splice(dst, at, data);
    forall i | at <= i < at + |data|
      ensures s[i] == data[i - at]
    {
      assert s[at..at + |data|][i - at] == data[i - at];
    }
  }

  /** The panel has b in page i / w, column i % w. */
  predicate CellIs(p: Panel, w: nat, i: nat, b: byte)
    requires w > 0
  {
    var page, col := i / w, i % w;
    page < |p.ram| && col < |p.ram[page]| && p.ram[page][col] == b
  }

  /** A coherent panel shows byte i of video memory where it belongs. */
  lemma CellShows(g: Geo, f: Fb, i: nat)
    requires GeoOk(g) && Ready(g, f) && Coherent(g, f) && i < |f.vmem|
    ensures CellIs(f.panel, g.w, i, f.vmem[i])
  {
    var q, c := i / g.w, i % g.w;
    CellOf(g.w, g.hp, i);
    assert f.panel.ram[q][c] == f.vmem[q * g.w + c];
  }

  /** The op may store to byte `at` of video memory. */
  predicate Touches(f: Fb, op: Op, at: nat) {
    match op
    case WriteOp(pos, buf, _) => pos <= at < pos + |buf|
    case BlitOp(_) => true
    case StoreOp(i, _) => i == at
    case DeferredOp => false
    case BlankOp(_) => false
  }

  ghost predicate NoneTouch(f: Fb, ops: seq<Op>, at: nat) {
    forall k :: 0 <= k < |ops| ==> !Touches(f, ops[k], at)
  }

  lemma OpKeepsByte(g: Geo, f: Fb, op: Op, at: nat)
    requires FbInv(g, f) && Callable(f, op) && at < |f.vmem| && !Touches(f, op, at)
    ensures |Apply(g, f, op).vmem| == |f.vmem| && Apply(g, f, op).vmem[at] == f.vmem[at]
  {
    if op.WriteOp? {
      WrittenStores(g, f, op.pos, op.buf, op.readable);
    }
  }

  lemma {:induction false} DeferredShows(g: Geo, f: Fb, ops: seq<Op>, at: nat)
    requires FbInv(g, f) && CanRun(g, f, ops + [DeferredOp]) && at < |f.vmem| && NoneTouch(f, ops, at)
    ensures var f' := Run(g, f, ops + [DeferredOp]);
            FbInv(g, f') && !f'.dirty && CellIs(f'.panel, g.w, at, f.vmem[at])
    decreases |ops|
  {
    var all := ops + [DeferredOp];
    var f1 := Apply(g, f, all[0]);
    OpKeepsInv(g, f, all[0]);
    if ops == [] {
      assert all[1..] == [];
      DisplayCoheres(g, f.(dirty := false));
      CellShows(g, f1, at);
    } else {
      assert all[1..] == ops[1..] + [DeferredOp];
      OpKeepsByte(g, f, ops[0], at);
      assert NoneTouch(f1, ops[1..], at) by {
        assert forall k :: 0 <= k < |ops[1..]| ==> ops[1..][k] == ops[k + 1];
      }
      DeferredShows(g, f1, ops[1..], at);
    }
  }

  /**
  A byte stored through mmap reaches its place on the panel with the next deferred
  i/o, whatever else is written, drawn elsewhere, pushed or blanked in between.
  */
  lemma StoreReachesPanel(g: Geo, f: Fb, at: nat, b: byte, ops: seq<Op>)
    requires FbInv(g, f) && at < |f.vmem|
    requires CanRun(g, f, [StoreOp(at, b)] + (ops + [DeferredOp])) && NoneTouch(f, ops, at)
    ensures var f' := Run(g, f, [StoreOp(at, b)] + (ops + [DeferredOp]));
            FbInv(g, f') && !f'.dirty && CellIs(f'.panel, g.w, at, b)
  {
    var all := [StoreOp(at, b)] + (ops + [DeferredOp]);
    assert all[1..] == ops + [DeferredOp];
    var f1 := Apply(g, f, StoreOp(at, b));
    OpKeepsInv(g, f, StoreOp(at, b));
    SplicedAt(f.vmem, at, [b]);
    assert f1.vmem[at] == b;
    DeferredShows(g, f1, ops, at);
  }

  /** After a blit the panel shows the image. */
  lemma BlitShows(g: Geo, f: Fb, image: seq<byte>, i: nat)
    requires GeoOk(g) && Ready(g, f) && |image| == |f.vmem| && i < |image|
    ensures var f' := Apply(g, f, BlitOp(image));
            Ready(g, f') && CellIs(f'.panel, g.w, i, image[i])
  {
    DisplayCoheres(g, f.(vmem := image));
    CellShows(g, Apply(g, f, BlitOp(image)), i);
  }

  // ---------------------------------------------------------- chunked writes

  function Concat(bufs: seq<seq<byte>>): seq<byte> {
    if bufs == [] then [] else bufs[0] + Concat(bufs[1..])
  }

  /** A process writing readable buffers one after the other through its file position. */
  function WrittenAll(g: Geo, f: Fb, pos: nat, bufs: seq<seq<byte>>): (Fb, nat)
    requires GeoOk(g) && Ready(g, f)
    decreases |bufs|
  {
    if bufs == [] then (f, pos)
    else
      ChunkStep(g, f, pos, bufs[0]);
      var (f1, _, pos1) := Written(g, f, pos, bufs[0], |bufs[0]|);
      WrittenAll(g, f1, pos1, bufs[1..])
  }

  /** One write of a readable buffer. */
  lemma ChunkStep(g: Geo, f: Fb, pos: nat, buf: seq<byte>)
    requires GeoOk(g) && Ready(g, f)
    ensures var (f', _, pos') := Written(g, f, pos, buf, |buf|);
            var n := Room(|f.vmem|, pos, |buf|);
            && Ready(g, f') && Holds(f.vmem, f'.vmem, pos, buf) && pos' == pos + n
            && (n > 0 || Coherent(g, f) ==> Coherent(g, f'))
  {
    WrittenStores(g, f, pos, buf, |buf|);
  }

  lemma RoomTwice(total: nat, pos: nat, a: nat, b: nat)
    ensures Room(total, pos, a) + Room(total, pos + Room(total, pos, a), b) == Room(total, pos, a + b)
  {
  }

  /** Video memory with the bytes of data from pos on, as far as they fit. */
  predicate Holds(was: seq<byte>, now: seq<byte>, pos: nat, data: seq<byte>) {
    && |now| == |was|
    && forall i :: 0 <= i < |was| ==> now[i] == if pos <= i < pos + |data| then data[i - pos] else was[i]
  }

  lemma HoldsTwice(was: seq<byte>, mid: seq<byte>, now: seq<byte>, pos: nat, a: seq<byte>, b: seq<byte>)
    requires Holds(was, mid, pos, a) && Holds(mid, now, pos + Room(|was|, pos, |a|), b)
    ensures Holds(was, now, pos, a + b)
  {
    forall i | 0 <= i < |was|
      ensures now[i] == if pos <= i < pos + |a + b| then (a + b)[i - pos] else was[i]
    {
      if pos <= i {
        assert Room(|was|, pos, |a|) == if |a| <= |was| - pos then |a| else |was| - pos;
      }
    }
  }

  /**
  Writing in any chunks is writing the whole: the bytes, cut off at the end of video
  memory, are stored, the file position is behind them and the panel shows them.
  */
  lemma {:induction false} ChunksAsOne(g: Geo, f: Fb, pos: nat, bufs: seq<seq<byte>>)
    requires GeoOk(g) && Ready(g, f)
    ensures var (f', pos') := WrittenAll(g, f, pos, bufs);
            var n := Room(|f.vmem|, pos, |Concat(bufs)|);
            && Ready(g, f') && Holds(f.vmem, f'.vmem, pos, Concat(bufs)) && pos' == pos + n
            && (n > 0 || Coherent(g, f) ==> Coherent(g, f'))
    decreases |bufs|
  {
    if bufs != [] {
      var (f1, _, pos1) := Written(g, f, pos, bufs[0], |bufs[0]|);
      ChunkStep(g, f, pos, bufs[0]);
      ChunksAsOne(g, f1, pos1, bufs[1..]);
      RoomTwice(|f.vmem|, pos, |bufs[0]|, |Concat(bufs[1..])|);
      HoldsTwice(f.vmem, f1.vmem, WrittenAll(g, f1, pos1, bufs[1..]).0.vmem, pos, bufs[0], Concat(bufs[1..]));
    }
  }

  // -------------------------------------------------------------- the driver

  lemma FrameBytes(width: nat, height: nat)
    requires height % 8 == 0
    ensures width * height / 8 == width * (height / 8)
  {
    var h := height / 8;
    assert height == 8 * h;
    assert width * height == 8 * (width * h);
    ModUnique(width * height, 8, width * h, 0);
  }

  class Ssd1306Fb {
    const width: nat
    const height: nat
    const cols: nat
    const pages: nat
    const vmem: array<byte>
    var panel: Panel
    var dirty: bool
    ghost var faulted: bool

    ghost function G(): Geo {
      Geo(width, height / 8, cols, pages)
    }

    ghost function Model(): Fb
      reads this, vmem
    {
      Fb(vmem[..], panel, dirty, faulted)
    }

    ghost predicate Valid()
      reads this
    {
      && GeoOk(G()) && height % 8 == 0 && vmem.Length == width * (height / 8)
      && PanelOk(panel, cols, pages) && CmdOk(panel)
    }

    /** Probe: video memory zeroed, the panel in whatever state power-on left it. */
    constructor (width: nat, height: nat, cols: nat, pages: nat, panel: Panel)
      requires GeoOk(Geo(width, height / 8, cols, pages)) && height % 8 == 0
      requires PanelOk(panel, cols, pages) && CmdOk(panel)
      ensures Valid() && fresh(vmem) && this.panel == panel
      ensures this.width == width && this.height == height && this.cols == cols && this.pages == pages
      ensures vmem[..] == Repeat(0, width * (height / 8)) && !dirty && !faulted
    {
      this.width, this.height, this.cols, this.pages := width, height, cols, pages;
      this.panel := panel;
      FrameBytes(width, height);
      vmem := new byte[width * height / 8](_ => 0);
      dirty, faulted := false, false;
    }

    /** ssd1306fb_write_cmd */
    method WriteCmd(c: byte)
      requires Valid()
      modifies this`panel
      ensures Valid() && panel == CommandByte(old(panel), c, cols, pages)
    {
      panel := Receive(panel, [0x80, c], cols, pages);
    }

    /** ssd1306fb_write_data */
    method WriteData(data: array<byte>, len: nat)
      requires Valid() && len <= data.Length
      modifies this`panel
      ensures panel == Receive(old(panel), [0x40] + data[..len], cols, pages)
    {
      var msg := new byte[1 + len];
      msg[0] := 0x40;
      MemCpy(msg, 1, data, 0, len);
      assert msg[..] == [0x40] + data[..len];
      panel := Receive(panel, msg[..], cols, pages);
    }

    /** ssd1306fb_display */
    method Display()
      requires Valid()
      modifies this`panel, this`faulted
      ensures Model() == Displayed(G(), old(Model()))
    {
      assert vmem[..vmem.Length] == vmem[..];
      WriteData(vmem, vmem.Length);
      faulted := false;
    }

    /** ssd1306fb_deferred_io */
    method DeferredIo()
      requires Valid() && dirty
      modifies this`panel, this`dirty, this`faulted
      ensures Model() == Apply(G(), old(Model()), DeferredOp)
      ensures !dirty
      ensures Ready(G(), old(Model())) ==> Ready(G(), Model()) && Coherent(G(), Model())
    {
      if Ready(G(), Model()) {
        DisplayCoheres(G(), Model().(dirty := false));
      }
      dirty := false;
      Display();
    }

    /** A store by a process that has video memory mapped. */
    method MmapStore(at: nat, b: byte)
      requires Valid() && at < vmem.Length
      modifies vmem, this`dirty
      ensures Model() == Apply(G(), old(Model()), StoreOp(at, b))
      ensures vmem[..] == old(vmem[..])[at := b] && dirty
    {
      vmem[at] := b;
      dirty := true;
    }

    /** ssd1306fb_imageblit; `image` is what sys_imageblit makes of video memory. */
    method ImageBlit(image: seq<byte>)
      requires Valid() && |image| == vmem.Length
      modifies vmem, this`panel, this`faulted
      ensures Model() == Apply(G(), old(Model()), BlitOp(image))
      ensures vmem[..] == image
      ensures Ready(G(), old(Model())) ==> Ready(G(), Model()) && Coherent(G(), Model())
    {
      forall i | 0 <= i < vmem.Length {
        vmem[i] := image[i];
      }
      assert vmem[..] == image;
      if Ready(G(), Model()) {
        DisplayCoheres(G(), Model());
      }
      Display();
    }

    /** ssd1306fb_blank */
    method Blank(unblank: bool)
      requires Valid()
      modifies this`panel
      ensures Model() == Apply(G(), old(Model()), BlankOp(unblank))
      ensures old(panel).cmd == [] ==> panel == old(panel).(on := unblank)
    {
      if !unblank {
        WriteCmd(0xae);
      } else {
        WriteCmd(0xaf);
      }
    }

    /** ssd1306fb_write */
    method WriteBytes(buf: seq<byte>, ppos: nat, readable: nat) returns (ret: int, ppos': nat)
      requires Valid()
      modifies vmem, this`panel, this`faulted
      ensures (Model(), ret, ppos') == Written(G(), old(Model()), ppos, buf, readable)
    {
      var total := vmem.Length;
      var count := |buf|;
      if ppos > total {
        return -EINVAL, ppos;
      }
      if count + ppos > total {
        count := total - ppos;
      }
      if count == 0 {
        return -EINVAL, ppos;
      }
      assert count == Covered(total, ppos, |buf|);
      var left := CopyFromUser(vmem, ppos, buf, count, readable);
      assert Model() == old(Model()).(vmem := Splice(old(vmem[..]), ppos, CopiedFromUser(buf, count, readable)));
      if left != 0 {
        faulted := true;
        return -EFAULT, ppos;
      }
      Display();
      return count, ppos + count;
    }

    /** The same, as its callers see it. */
    method Write(buf: seq<byte>, ppos: nat, readable: nat) returns (ret: int, ppos': nat)
      requires Valid()
      modifies vmem, this`panel, this`faulted
      ensures (Model(), ret, ppos') == Written(G(), old(Model()), ppos, buf, readable)
      ensures Stored(G(), old(Model()), Model(), buf, ppos, readable, ret, ppos')
    {
      WrittenStores(G(), Model(), ppos, buf, readable);
      ret, ppos' := WriteBytes(buf, ppos, readable);
    }

    /** A one-argument command that does not concern the address pointer. */
    method Configure(c: byte, arg: byte)
      requires Valid() && panel.cmd == [] && ArgCount(c) == 1 && c != 0x20
      modifies this`panel
      ensures Valid() && panel == old(panel).(regs := old(panel).regs[c := arg])
    {
      WriteCmd(c);
      WriteCmd(arg);
    }

    /** A command without arguments that does not switch the display. */
    method Remap(c: byte)
      requires Valid() && panel.cmd == [] && ArgCount(c) == 0 && c != 0xae && c != 0xaf
      modifies this`panel
      ensures Valid() && panel == old(panel).(regs := old(panel).regs[c := 0])
    {
      WriteCmd(c);
    }

    method AddressingMode()
      requires Valid() && panel.cmd == []
      modifies this`panel
      ensures Valid() && panel == old(panel).(mode := 0)
    {
      WriteCmd(0x20);
      WriteCmd(0x00);
    }

    method ColumnRange()
      requires Valid() && panel.cmd == []
      modifies this`panel
      ensures Valid() && panel == old(panel).(colStart := 0, colEnd := width - 1, col := 0)
    {
      RangeCommands(panel, width - 1, cols, pages);
      WriteCmd(0x21);
      WriteCmd(0x00);
      WriteCmd(width - 1);
    }

    method PageRange()
      requires Valid() && panel.cmd == []
      modifies this`panel
      ensures Valid() && panel == old(panel).(pageStart := 0, pageEnd := height / 8 - 1, page := 0)
    {
      RangeCommands(panel, height / 8 - 1, cols, pages);
      WriteCmd(0x22);
      WriteCmd(0x00);
      WriteCmd(height / 8 - 1);
    }

    /**
    The first setting. Its two bytes are enough to complete any command the panel was
    left with, so that the next byte starts a new one.
    */
    method Contrast()
      requires Valid()
      modifies this`panel
      ensures Valid() && panel.cmd == []
      ensures old(panel).cmd == [] ==> panel == old(panel).(regs := old(panel).regs[0x81 := 127])
    {
      WriteCmd(0x81);
      WriteCmd(127);
    }

    /** Offset, clock, pre-charge, pins, voltage level, charge pump. */
    method DriveSettings()
      requires Valid() && panel.cmd == []
      modifies this`panel
      ensures Valid() && panel == old(panel).(regs := panel.regs)
      ensures 0xa8 in old(panel).regs ==> 0xa8 in panel.regs && panel.regs[0xa8] == old(panel).regs[0xa8]
    {
      Configure(0xd3, 0);
      Configure(0xd5, 0x80);
      Configure(0xd9, 0x1f);
      Configure(0xda, 0x12);
      Configure(0xdb, 0x40);
      Configure(0x8d, 0x14);
    }

    /** The display settings, none of which moves the address pointer. */
    method DisplaySettings()
      requires Valid()
      modifies this`panel
      ensures Valid() && panel.cmd == []
      ensures old(panel).cmd == [] ==> panel == old(panel).(regs := panel.regs)
      ensures 0xa8 in panel.regs && panel.regs[0xa8] == height - 1
    {
      Contrast();
      Remap(0xa1);
      Remap(0xc8);
      Configure(0xa8, height - 1);
      DriveSettings();
    }

    /** Addressing mode and both ranges: the pointer's window and its start. */
    method ProgramWindow()
      requires Valid() && panel.cmd == []
      modifies this`panel
      ensures Valid() && Ready(G(), Model()) && panel.regs == old(panel).regs
    {
      AddressingMode();
      ColumnRange();
      PageRange();
    }

    /** ssd1306fb_init: from any panel, to a programmed one that shows video memory and is switched on. */
    method Init()
      requires Valid()
      modifies this`panel, this`faulted
      ensures Valid() && FbInv(G(), Model()) && Coherent(G(), Model()) && !faulted
      ensures panel.on && 0xa8 in panel.regs && panel.regs[0xa8] == height - 1
    {
      DisplaySettings();
      ProgramWindow();
      DisplayCoheres(G(), Model());
      Display();
      BlankKeeps(G(), Model(), true);
      WriteCmd(0xaf);
    }
  }
}
