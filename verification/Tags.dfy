/**
The blk-mq tag allocator (block/blk-mq-tag.c): a bitmap spread over words, searched from a cached
position. Allocators, freers and depth changes take atomic steps in any order.
*/
module Tags {
  import opened Common

  type Pos = n: int | n >= 1 witness 1

  const UINT_MAX: nat := 0xFFFF_FFFF

  /** struct blk_align_bitmap. */
  datatype Word = Word(busy: seq<bool>, depth: nat)

  /** struct blk_mq_bitmap_tags; `per` is 1 << bits_per_word. */
  datatype Bitmap = Bitmap(per: Pos, words: seq<Word>, depth: nat)

  predicate BitmapOk(bt: Bitmap) {
    forall w :: 0 <= w < |bt.words| ==> |bt.words[w].busy| == bt.per && bt.words[w].depth <= bt.per
  }

  function Capacity(bt: Bitmap): nat { |bt.words| * bt.per }

  /** TAG_TO_INDEX and TAG_TO_BIT. */
  function IndexOf(bt: Bitmap, tag: nat): nat { tag / bt.per }

  function BitOf(bt: Bitmap, tag: nat): nat { tag % bt.per }

  function TagAt(bt: Bitmap, index: nat, bit: nat): nat { index * bt.per + bit }

  /** find_next_zero_bit. */
  function NextZero(busy: seq<bool>, depth: nat, from: nat): (b: nat)
    requires depth <= |busy|
    ensures b == depth || (from <= b < depth && !busy[b])
    ensures forall k :: from <= k < b ==> k < depth ==> busy[k]
    decreases depth - from
  {
    if from >= depth then depth
    else if !busy[from] then from
    else NextZero(busy, depth, from + 1)
  }

  function Min(a: nat, b: nat): nat { if a < b then a else b }

  function Clamp(depth: nat, w: nat, per: nat): nat {
    if depth <= w * per then 0 else Min(depth - w * per, per)
  }

  /** bt_update_count: a depth of zero leaves the words as they are. */
  function UpdateCount(bt: Bitmap, depth: nat): Bitmap {
    bt.(depth := depth,
        words := if depth == 0 then bt.words
                 else seq(|bt.words|, w requires 0 <= w < |bt.words| =>
                          bt.words[w].(depth := Clamp(depth, w, bt.per))))
  }

  /** The depth blk_mq_tag_update_depth is left with for the normal tags, a difference of unsigned numbers. */
  function NormalDepth(nrReserved: nat, tdepth: nat): nat { (tdepth - nrReserved) % (UINT_MAX + 1) }

  /** blk_mq_tag_update_depth. */
  function UpdateDepth(bt: Bitmap, nrTags: nat, nrReserved: nat, tdepth: nat): Option<Bitmap> {
    var d := NormalDepth(nrReserved, tdepth);
    if d > nrTags then None else Some(UpdateCount(bt, d))
  }

  /** The value __bt_get stores in the tag cache after handing out `tag`. */
  function NewCache(depth: nat, tag: nat): nat {
    if tag + 1 >= (if depth == 0 then UINT_MAX else depth - 1) then 0 else tag + 1
  }

  /** bt_alloc: fewer tags per word until there are at least four words, for maps of four tags or more. */
  function PerWord(depth: nat, per: Pos): Pos
    decreases per
  {
    if depth >= 4 && per * 4 > depth && per > 1 then PerWord(depth, per / 2) else per
  }

  function NewBitmap(depth: nat): Bitmap {
    if depth == 0 then Bitmap(64, [], 0)
    else
      var per := PerWord(depth, 64);
      UpdateCount(Bitmap(per, seq((depth + per - 1) / per, _ => Word(seq(per, _ => false), 0)), 0), depth)
  }

  function SetBit(bt: Bitmap, w: nat, b: nat, value: bool): Bitmap
    requires w < |bt.words| && b < |bt.words[w].busy|
  {
    bt.(words := bt.words[w := bt.words[w].(busy := bt.words[w].busy[b := value])])
  }

  // ---------------------------------------------------------------- the machine

  type Tid = nat

  /** A search in progress: which map, the cached tag it started from, the word it is at, how many words it
      has tried, and in __bt_get_word the offset it started from and the one it has reached. */
  datatype Search = Search(ctx: nat, reserved: bool, org: nat, index: nat, tried: nat, orgBit: nat, bit: nat)

  datatype Pc =
    | Idle
    | Look(s: Search)               // about to look for a zero bit
    | Try(s: Search, b: nat)        // about to test and set bit `b`
    | Got(s: Search, tag: nat)      // has the bit, has not updated the cache

  datatype State = State(
    normal: Bitmap,                 // bitmap_tags
    reserve: Bitmap,                // breserved_tags
    nrTags: nat,
    nrReserved: nat,
    rr: bool,                       // BLK_TAG_ALLOC_RR
    caches: seq<nat>,               // ctx->last_tag
    threads: seq<Pc>,
    held: map<nat, Tid>,            // who was given which tag and has not put it
    outside: bool)                  // a cached tag was looked up in a word that does not exist

  function MapOf(s: State, reserved: bool): Bitmap { if reserved then s.reserve else s.normal }

  function PutMap(s: State, reserved: bool, bt: Bitmap): State {
    if reserved then s.(reserve := bt) else s.(normal := bt)
  }

  /** The number a tag has outside: normal tags come after the reserved ones. */
  function Number(s: State, reserved: bool, tag: nat): nat { if reserved then tag else tag + s.nrReserved }

  function Goto(s: State, t: Tid, pc: Pc): State
    requires t < |s.threads|
  {
    s.(threads := s.threads[t := pc])
  }

  /** Give up on this word: go to the next, or fail. A failing search resets its cache. */
  function NextWord(s: State, t: Tid, x: Search): State
    requires t < |s.threads|
  {
    var bt := MapOf(s, x.reserved);
    if x.tried + 1 >= |bt.words| then
      var s1 := Goto(s, t, Idle);
      if x.reserved || x.ctx >= |s.caches| then s1 else s1.(caches := s.caches[x.ctx := 0])
    else
      var i := if x.index + 1 >= |bt.words| then 0 else x.index + 1;
      Goto(s, t, Look(x.(index := i, tried := x.tried + 1, orgBit := 0, bit := 0)))
  }

  /** find_next_zero_bit and what follows when there is none. */
  function LookStep(s: State, t: Tid, x: Search): State
    requires t < |s.threads|
  {
    var bt := MapOf(s, x.reserved);
    if x.index >= |bt.words| || bt.words[x.index].depth > |bt.words[x.index].busy| then s
    else
      var word := bt.words[x.index];
      var b := NextZero(word.busy, word.depth, x.bit);
      if b < word.depth then Goto(s, t, Try(x, b))
      else if x.orgBit != 0 && x.bit != 0 && !s.rr then Goto(s, t, Look(x.(orgBit := 0, bit := 0)))
      else NextWord(s, t, x)
  }

  /** test_and_set_bit: on success the tag is the caller's, otherwise look further. */
  function TryStep(s: State, t: Tid, x: Search, b: nat): State
    requires t < |s.threads|
  {
    var bt := MapOf(s, x.reserved);
    if x.index >= |bt.words| || b >= |bt.words[x.index].busy| then s
    else if bt.words[x.index].busy[b] then
      var d := bt.words[x.index].depth;
      Goto(s, t, Look(x.(bit := if b + 1 >= (if d == 0 then UINT_MAX else d - 1) then 0 else b + 1)))
    else
      var tag := TagAt(bt, x.index, b);
      Goto(PutMap(s, x.reserved, SetBit(bt, x.index, b, true)), t, Got(x, tag))
        .(held := s.held[Number(s, x.reserved, tag) := t])
  }

  /** The cache is only touched when the cached tag was the one used, or for round-robin. */
  function GotStep(s: State, t: Tid, x: Search, tag: nat): State
    requires t < |s.threads|
  {
    var s1 := Goto(s, t, Idle);
    if x.reserved || x.ctx >= |s.caches| then s1
    else if tag == x.org || s.rr then s1.(caches := s.caches[x.ctx := NewCache(s.normal.depth, tag)])
    else s1
  }

  datatype Event =
    | Get(t: Tid, ctx: nat, reserved: bool)
    | Step(t: Tid)
    | Put(number: nat, ctx: nat)            // blk_mq_put_tag
    | Resize(tdepth: nat)                   // blk_mq_tag_update_depth

  /** bt_get; a cached tag beyond the map makes the word it is looked up in one beyond the array. */
  function StartGet(s: State, t: Tid, ctx: nat, reserved: bool): State
    requires t < |s.threads|
  {
    if reserved then
      if s.nrReserved == 0 || s.reserve.words == [] then s else Goto(s, t, Look(Search(ctx, true, 0, 0, 0, 0, 0)))
    else if ctx >= |s.caches| || s.normal.words == [] then s
    else
      var c := s.caches[ctx];
      if IndexOf(s.normal, c) >= |s.normal.words| then s.(outside := true)
      else Goto(s, t, Look(Search(ctx, false, c, IndexOf(s.normal, c), 0, BitOf(s.normal, c), BitOf(s.normal, c))))
  }

  /** blk_mq_put_tag by whoever holds the tag; a first-in-first-out map remembers where it was. */
  function PutTag(s: State, number: nat, ctx: nat): State {
    var reserved := number < s.nrReserved;
    var tag := if reserved then number else number - s.nrReserved;
    var bt := MapOf(s, reserved);
    var (w, b) := (IndexOf(bt, tag), BitOf(bt, tag));
    if w >= |bt.words| || b >= |bt.words[w].busy| then s
    else
      var s1 := PutMap(s, reserved, SetBit(bt, w, b, false)).(held := s.held - {number});
      if !reserved && !s.rr && ctx < |s.caches| then s1.(caches := s.caches[ctx := tag]) else s1
  }

  /** After an access outside the map nothing more is known, so nothing more happens. */
  predicate Enabled(s: State, e: Event) {
    && !s.outside
    && match e
       case Get(t, _, _) => t < |s.threads| && s.threads[t] == Idle
       case Step(t) => t < |s.threads|
       case Put(number, _) => number in s.held
       case Resize(_) => true
  }

  function Next(s: State, e: Event): State {
    if !Enabled(s, e) then s
    else
      match e
      case Get(t, ctx, reserved) => StartGet(s, t, ctx, reserved)
      case Step(t) =>
        (match s.threads[t]
         case Idle => s
         case Look(x) => LookStep(s, t, x)
         case Try(x, b) => TryStep(s, t, x, b)
         case Got(x, tag) => GotStep(s, t, x, tag))
      case Put(number, ctx) => PutTag(s, number, ctx)
      case Resize(tdepth) =>
        var r := UpdateDepth(s.normal, s.nrTags, s.nrReserved, tdepth);
        if r.Some? then s.(normal := r.value) else s
  }

  function Run(s: State, events: seq<Event>): State
    decreases |events|
  {
    if events == [] then s else Run(Next(s, events[0]), events[1..])
  }

  /** The arguments of blk_mq_init_tags, and where blk_mq_tag_init_last_tag put the caches. */
  datatype Setup = Setup(nrTags: nat, nrReserved: nat, rr: bool, threads: nat, caches: seq<nat>)

  predicate SetupOk(u: Setup) {
    u.nrReserved < u.nrTags && forall c :: 0 <= c < |u.caches| ==> u.caches[c] < u.nrTags - u.nrReserved
  }

  function Init(u: Setup): State
    requires SetupOk(u)
  {
    State(NewBitmap(u.nrTags - u.nrReserved), NewBitmap(u.nrReserved), u.nrTags, u.nrReserved, u.rr, u.caches,
          seq(u.threads, _ => Idle), map[], false)
  }
}
