/** One bitmap of tags, searched and updated in place by one CPU (block/blk-mq-tag.c). */
module TagMap {
  import opened Tags
  import opened TagsProofs

  /** Tag `tag` is offered and free. */
  predicate Free(bt: Bitmap, w: nat, b: nat)
    requires BitmapOk(bt)
  {
    w < |bt.words| && b < bt.words[w].depth && !bt.words[w].busy[b]
  }

  /** Word `w` is among the first `i` words visited from `first` on, round the end of `n` words. */
  predicate Visited(w: nat, first: nat, i: nat, n: nat) {
    first <= w < first + i || w + n < first + i
  }

  /** What a failed search has shown: nothing is free, but for the part of the first word that a round-robin
      search starts behind. */
  ghost predicate Exhausted(bt: Bitmap, cache: nat, rr: bool, i: nat)
    requires BitmapOk(bt)
  {
    forall w: nat, k: nat {:trigger Free(bt, w, k)} ::
      Free(bt, w, k) && Visited(w, IndexOf(bt, cache), i, |bt.words|) ==>
        rr && w == IndexOf(bt, cache) && k < BitOf(bt, cache)
  }

  /** How many words a search from word `first` visits before it comes to word `w` of `n`. */
  function WordsBefore(first: nat, w: nat, n: nat): int { if w >= first then w - first else w + n - first }

  /** Bit `b` of word `w` is the first free one in the order of the search: no word before had any to offer, and
      in this word the search starts at the cache, if it is the cache's word, and wraps only when it may. */
  ghost predicate FirstFree(bt: Bitmap, cache: nat, rr: bool, w: nat, b: nat)
    requires BitmapOk(bt)
  {
    var (first, n) := (IndexOf(bt, cache), |bt.words|);
    var start := if w == first then BitOf(bt, cache) else 0;
    && WordsBefore(first, w, n) >= 0 && Exhausted(bt, cache, rr, WordsBefore(first, w, n))
    && (b >= start ==> forall k :: start <= k < b ==> !Free(bt, w, k))
    && (b < start ==>
          !rr && (forall k :: start <= k ==> !Free(bt, w, k)) && (forall k :: 0 <= k < b ==> !Free(bt, w, k)))
  }

  class TagMap {
    const per: Pos
    const words: array<Word>
    var depth: nat

    ghost predicate Valid()
      reads this, words
    {
      BitmapOk(Bt())
    }

    ghost function Bt(): Bitmap
      reads this, words
    {
      Bitmap(per, words[..], depth)
    }

    /** bt_alloc. */
    constructor (n: nat)
      ensures Valid() && Bt() == NewBitmap(n) && fresh(words)
    {
      var p: Pos := 64;
      if n >= 4 {
        while p * 4 > n
          invariant PerWord(n, p) == PerWord(n, 64)
          decreases p
        {
          Halves(n, p);
          p := p / 2;
        }
      }
      ghost var per0 := p;
      per := p;
      depth := n;
      var nr := if n == 0 then 0 else (n + p - 1) / p;
      words := new Word[nr](w requires 0 <= w < nr => Word(seq(p, _ => false), Clamp(n, w, p)));
      new;
      NewBitmapOk(n);
      SameWords(n, per0, words[..]);
    }

    static lemma Halves(n: nat, p: Pos)
      requires n >= 4 && p * 4 > n
      ensures p > 1 && PerWord(n, p) == PerWord(n, p / 2)
    {
    }

    static lemma SameWords(n: nat, p: Pos, words: seq<Word>)
      requires if n == 0 then p == 64 && words == [] else p == PerWord(n, 64) && |words| == (n + p - 1) / p
      requires forall w :: 0 <= w < |words| ==> words[w] == Word(seq(p, _ => false), Clamp(n, w, p))
      ensures Bitmap(p, words, n) == NewBitmap(n)
    {
    }

    /** bt_update_count; the wake-up batch is not part of the map. */
    method SetDepth(d: nat)
      requires Valid()
      modifies this`depth, words
      ensures Valid() && Bt() == UpdateCount(old(Bt()), d)
    {
      if d > 0 {
        var left := d;
        var w: nat := 0;
        while w < words.Length
          invariant w <= words.Length && left == (if d <= w * per then 0 else d - w * per)
          invariant forall k :: 0 <= k < w ==> words[k] == old(words[k]).(depth := Clamp(d, k, per))
          invariant forall k :: w <= k < words.Length ==> words[k] == old(words[k])
        {
          assert (w + 1) * per == w * per + per;
          words[w] := words[w].(depth := Min(left, per));
          left := left - words[w].depth;
          w := w + 1;
        }
        assert words[..] == UpdateCount(old(Bt()), d).words;
      }
      depth := d;
    }

    /** __bt_get_word, undisturbed: nowrap looks from `last` on only, otherwise the whole word is searched. */
    method GetWord(w: nat, last: nat, nowrap: bool) returns (b: int)
      requires Valid() && w < words.Length
      modifies words
      ensures Valid()
      ensures b == -1 ==> Bt() == old(Bt()) && forall k :: (if nowrap then last else 0) <= k ==> !Free(Bt(), w, k)
      ensures b != -1 ==> b >= 0 && Free(old(Bt()), w, b) && Bt() == SetBit(old(Bt()), w, b, true)
      ensures b >= last ==> forall k :: last <= k < b ==> !Free(old(Bt()), w, k)
      ensures 0 <= b < last ==> !nowrap && (forall k :: last <= k ==> !Free(old(Bt()), w, k))
                                && (forall k :: 0 <= k < b ==> !Free(old(Bt()), w, k))
    {
      var d := words[w].depth;
      assert words[w] == words[..][w];
      var from := last;
      b := NextZero(words[w].busy, d, from);
      if b >= d && from > 0 && !nowrap {
        b := NextZero(words[w].busy, d, 0);
      }
      if b >= d {
        b := -1;
        return;
      }
      words[w] := words[w].(busy := words[w].busy[b := true]);
      assert words[..] == old(words[..])[w := words[w]];
    }

    /** __bt_get, undisturbed and allowed to queue. First in, first out, a failure means that no tag is free;
        round-robin, that none is but those in front of the cache in its word, and the cache is reset. */
    method Get(cache: nat, rr: bool) returns (tag: int, cache': nat)
      requires Valid() && (words.Length > 0 ==> cache < Capacity(Bt()))
      modifies words
      ensures Valid()
      ensures tag == -1 ==> cache' == 0 && Bt() == old(Bt()) && Exhausted(Bt(), cache, rr, words.Length)
      ensures tag != -1 ==> tag >= 0
      ensures tag != -1 ==>
        (var (w, b) := (IndexOf(old(Bt()), tag), BitOf(old(Bt()), tag));
         && Free(old(Bt()), w, b) && Bt() == SetBit(old(Bt()), w, b, true)
         && FirstFree(old(Bt()), cache, rr, w, b)
         && cache' == if tag == cache || rr then NewCache(depth, tag) else cache)
    {
      hide Capacity;
      InCapacity(Bt(), cache);
      ghost var bt := Bt();
      var first := cache / per;
      var index, bit := first, cache % per;
      var i: nat := 0;
      while i < words.Length
        invariant i <= words.Length && Valid() && Bt() == bt
        invariant i < words.Length ==>
          index == (if first + i < words.Length then first + i else first + i - words.Length)
          && bit == (if i == 0 then cache % per else 0)
        invariant Exhausted(bt, cache, rr, i)
      {
        var b := GetWord(index, bit, rr);
        if b != -1 {
          tag := index * per + b;
          TagsArePairs(bt, index, b);
          cache' := cache;
          if tag == cache || rr {
            cache' := tag + 1;
            if cache' >= (if depth == 0 then UINT_MAX else depth - 1) { cache' := 0; }
          }
          return;
        }
        OneMore(bt, cache, rr, i, index, bit);
        index := index + 1;
        bit := 0;
        if index >= words.Length { index := 0; }
        i := i + 1;
      }
      tag, cache' := -1, 0;
    }

    static lemma OneMore(bt: Bitmap, cache: nat, rr: bool, i: nat, index: nat, bit: nat)
      requires BitmapOk(bt) && i < |bt.words| && IndexOf(bt, cache) < |bt.words| && Exhausted(bt, cache, rr, i)
      requires index == (if IndexOf(bt, cache) + i < |bt.words| then IndexOf(bt, cache) + i
                         else IndexOf(bt, cache) + i - |bt.words|)
      requires bit == if i == 0 then BitOf(bt, cache) else 0
      requires forall k :: (if rr then bit else 0) <= k ==> !Free(bt, index, k)
      ensures Exhausted(bt, cache, rr, i + 1)
    {
      hide IndexOf, BitOf;
      forall w: nat, k: nat | Free(bt, w, k) && Visited(w, IndexOf(bt, cache), i + 1, |bt.words|)
        ensures rr && w == IndexOf(bt, cache) && k < BitOf(bt, cache)
      {
        if w == index {
          assert !(bit <= k) || !rr;
        } else {
          assert Visited(w, IndexOf(bt, cache), i, |bt.words|);
        }
      }
    }

    /** Under either policy a search from the first tag is exhaustive, so that the search after a failed one,
        whose cache has been reset, fails only if no tag is free. */
    static lemma FromStartIsExhaustive(bt: Bitmap, rr: bool)
      requires BitmapOk(bt) && Exhausted(bt, 0, rr, |bt.words|)
      ensures forall w: nat, k: nat :: !Free(bt, w, k)
    {
      assert forall w: nat :: w < |bt.words| ==> Visited(w, IndexOf(bt, 0), |bt.words|, |bt.words|);
    }

    /** First in, first out, one failed search is enough. */
    static lemma FifoIsExhaustive(bt: Bitmap, cache: nat)
      requires BitmapOk(bt) && Exhausted(bt, cache, false, |bt.words|)
      requires |bt.words| > 0 ==> IndexOf(bt, cache) < |bt.words|
      ensures forall w: nat, k: nat :: !Free(bt, w, k)
    {
      assert forall w: nat :: w < |bt.words| ==> Visited(w, IndexOf(bt, cache), |bt.words|, |bt.words|);
    }

    /** bt_clear_tag, without the wake-ups. */
    method Clear(tag: nat)
      requires Valid() && tag < Capacity(Bt())
      modifies words
      ensures Valid() && Bt() == SetBit(old(Bt()), IndexOf(old(Bt()), tag), BitOf(old(Bt()), tag), false)
    {
      InCapacity(Bt(), tag);
      var w, b := tag / per, tag % per;
      assert words[w] == words[..][w];
      words[w] := words[w].(busy := words[w].busy[b := false]);
      assert words[..] == old(words[..])[w := words[w]];
    }
  }
}
