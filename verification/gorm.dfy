/**
 * The part of GORM's query semantics both services rely on: a soft-deleted
 * row is invisible, and `Offset(o).Limit(l)` keeps a window of the result.
 * An offset is only emitted when it is positive and a limit only when it
 * is non-negative, which is how GORM's clause builder treats them.
 */
module Gorm {

  /** The first row `Offset(offset)` keeps. */
  function WindowStart(n: nat, offset: int): (start: nat)
    ensures start <= n
    ensures offset <= 0 ==> start == 0
    ensures 0 < offset <= n ==> start == offset
  {
    if offset <= 0 then 0 else if offset < n then offset else n
  }

  /** `Offset(offset).Limit(limit)` applied to an ordered result. */
  function Window<T>(s: seq<T>, offset: int, limit: int): (r: seq<T>)
    ensures limit >= 0 ==> |r| <= limit
    ensures var start := WindowStart(|s|, offset);
      start + |r| <= |s| && r == s[start..start + |r|]
    ensures limit < 0 ==> r == s[WindowStart(|s|, offset)..]
    ensures limit >= 0 && WindowStart(|s|, offset) + limit <= |s| ==> |r| == limit
  {
    var start := WindowStart(|s|, offset);
    var rest := s[start..];
    if 0 <= limit < |rest| then rest[..limit] else rest
  }

  /** Consecutive pages of the same size tile the result: page p+1 starts where page p ends. */
  lemma WindowsTile<T>(s: seq<T>, page: nat, size: nat)
    requires size > 0 && (page + 1) * size <= |s|
    ensures Window(s, page * size, size) + Window(s, (page + 1) * size, size)
         == s[page * size..(page + 1) * size + |Window(s, (page + 1) * size, size)|]
  {
    var a := Window(s, page * size, size);
    var b := Window(s, (page + 1) * size, size);
    assert page * size + size == (page + 1) * size;
    assert page * size < (page + 1) * size;
    if page * size > 0 {
      assert WindowStart(|s|, page * size) == page * size;
    }
    assert |a| == size;
    if (page + 1) * size < |s| {
      assert WindowStart(|s|, (page + 1) * size) == (page + 1) * size;
    } else {
      assert |b| == 0;
    }
    assert a == s[page * size..(page + 1) * size];
    assert b == s[(page + 1) * size..(page + 1) * size + |b|];
  }
}
