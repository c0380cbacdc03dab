/** How much code fits a box: `box_capacity` and `op_fit_font` (scripts/deck_edit.py) and the
    search of `suggest` (_plans/s12-manifest/tools/gen_fit.py), over exact reals. Lengths are
    EMU, font sizes hundredths of a point, as in the slide's XML. */
module Fit {
  import opened Text

  const EMU_PER_PT := 12700.0
  const LINE_HEIGHT := 1.2
  const MONO_ADVANCE := 0.6
  const GLYPH_BOX := 1.32
  const MIN_CODE_SZ := 900

  /** The frame's extent and the insets that matter. */
  datatype Frame = Frame(cx: int, cy: int, left: int, top: int, right: int)

  /** What is left for the text, in points. */
  function Height(f: Frame): real {
    (f.cy - f.top) as real / EMU_PER_PT
  }

  function Width(f: Frame): real {
    (f.cx - f.left - f.right) as real / EMU_PER_PT
  }

  function Pt(sz: int): real {
    sz as real / 100.0
  }

  function Pitch(sz: int, spacing: real): real {
    Pt(sz) * LINE_HEIGHT * spacing
  }

  /** `box_capacity`: how many lines, and how many columns, the frame admits. */
  function Lines(f: Frame, sz: int, spacing: real): int
    requires sz > 0 && spacing > 0.0
  {
    ((Height(f) - Pt(sz) * GLYPH_BOX) / Pitch(sz, spacing) + 1.0 + 0.02).Floor
  }

  function Columns(f: Frame, sz: int): int
    requires sz > 0
  {
    (Width(f) / (Pt(sz) * MONO_ADVANCE)).Floor
  }

  lemma DivAtMost(a: real, b: real, c: real)
    requires b > 0.0
    ensures c <= a / b <==> c * b <= a
  {
  }

  /** n lines are admitted exactly when the top inset, n - 1 pitches and the last line's
      glyph box end inside the frame, up to two hundredths of a pitch. */
  lemma LinesFit(f: Frame, sz: int, spacing: real, n: int)
    requires sz > 0 && spacing > 0.0
    ensures n <= Lines(f, sz, spacing) <==>
      f.top as real / 12700.0 + (n - 1) as real * (sz as real / 100.0 * 1.2 * spacing) + sz as real / 100.0 * 1.32
        <= f.cy as real / 12700.0 + 0.02 * (sz as real / 100.0 * 1.2 * spacing)
  {
    var pitch, room := Pitch(sz, spacing), Height(f) - Pt(sz) * GLYPH_BOX;
    DivAtMost(room, pitch, n as real - 1.02);
    assert (n as real - 1.02) * pitch == (n - 1) as real * pitch - 0.02 * pitch;
    assert Height(f) == f.cy as real / EMU_PER_PT - f.top as real / EMU_PER_PT;
  }

  lemma ColumnsFit(f: Frame, sz: int, n: int)
    requires sz > 0
    ensures n <= Columns(f, sz) <==>
      f.left as real / 12700.0 + n as real * (sz as real / 100.0 * 0.6) + f.right as real / 12700.0
        <= f.cx as real / 12700.0
  {
    assert Width(f) == f.cx as real / EMU_PER_PT - f.left as real / EMU_PER_PT - f.right as real / EMU_PER_PT;
    DivAtMost(Width(f), Pt(sz) * MONO_ADVANCE, n as real);
  }

  /** What n lines, or n columns, take of the frame for each point of the size. */
  function LineShare(n: int, spacing: real): real {
    (n as real - 1.02) * (LINE_HEIGHT * spacing) + GLYPH_BOX
  }

  function ColumnShare(n: int): real {
    n as real * MONO_ADVANCE
  }

  lemma AsShare(f: Frame, sz: int, spacing: real, n: int)
    requires sz > 0 && spacing > 0.0
    ensures n <= Lines(f, sz, spacing) <==> LineShare(n, spacing) * Pt(sz) <= Height(f)
    ensures n <= Columns(f, sz) <==> ColumnShare(n) * Pt(sz) <= Width(f)
  {
    var pitch, room := Pitch(sz, spacing), Height(f) - Pt(sz) * GLYPH_BOX;
    DivAtMost(room, pitch, n as real - 1.02);
    var a, b, p := n as real - 1.02, LINE_HEIGHT * spacing, Pt(sz);
    assert pitch == p * b;
    assert a * (p * b) == a * b * p;
    assert LineShare(n, spacing) * p == a * b * p + GLYPH_BOX * p;
    ColumnsFit(f, sz, n);
    assert n as real * (p * MONO_ADVANCE) == ColumnShare(n) * p;
  }

  /** What fits goes on fitting as the size shrinks. */
  ghost predicate Shrinks(k: real, room: real) {
    forall sz, sz' :: 0 < sz' <= sz && k * Pt(sz) <= room ==> k * Pt(sz') <= room
  }

  lemma ShrinksExactly(k: real, room: real)
    ensures Shrinks(k, room) <==> 0.0 <= k || 0.0 <= room || k * Pt(1) <= room
  {
    if k < 0.0 && room < 0.0 {
      // a size at which the negative share reaches the room
      var sz := (100.0 * room / k).Floor + 1;
      NegativeShare(k, room, sz);
      forall s | 0 < s && k * Pt(1) <= room ensures k * Pt(s) <= room {
        ScaleUp(-k, Pt(1), Pt(s));
      }
    } else {
      forall s, s' | 0 < s' <= s && k * Pt(s) <= room ensures k * Pt(s') <= room {
        if k < 0.0 { ScaleUp(-k, 0.0, Pt(s')); } else { ScaleUp(k, Pt(s'), Pt(s)); }
      }
    }
  }

  lemma ScaleUp(k: real, p: real, p': real)
    requires 0.0 <= k && p <= p'
    ensures k * p <= k * p' && -k * p' <= -k * p
  {
  }

  lemma NegativeShare(k: real, room: real, sz: int)
    requires k < 0.0 && room < 0.0 && sz == (100.0 * room / k).Floor + 1
    ensures 1 <= sz && k * Pt(sz) <= room
  {
    var q := 100.0 * room / k;
    assert q * k == 100.0 * room;
    assert q > 0.0 by { if q <= 0.0 { ScaleUp(-k, q, 0.0); assert false; } }
    ScaleUp(-k, q, sz as real);
    assert k * Pt(sz) == k * sz as real / 100.0;
  }

  /** The verdict of the capacity checks, for every frame: n lines, or n columns, that fit
      fit at every smaller size too. */
  lemma Monotone(f: Frame, sz: int, sz': int, spacing: real, n: int)
    requires 0 < sz' <= sz && spacing > 0.0
    ensures 1 <= n && (n == 1 ==> spacing <= 55.0) && n <= Lines(f, sz, spacing) ==> n <= Lines(f, sz', spacing)
    ensures 0 <= n <= Columns(f, sz) ==> n <= Columns(f, sz')
  {
    hide Lines, Columns, LineShare, ColumnShare, Pt;
    AsShare(f, sz, spacing, n);
    AsShare(f, sz', spacing, n);
    ShareSigns(n, spacing);
    ShrinksExactly(LineShare(n, spacing), Height(f));
    ShrinksExactly(ColumnShare(n), Width(f));
  }

  lemma ShareSigns(n: int, spacing: real)
    requires spacing > 0.0
    ensures 1 <= n && (n == 1 ==> spacing <= 55.0) ==> 0.0 <= LineShare(n, spacing)
    ensures 0.0 <= ColumnShare(n) <==> 0 <= n
  {
    if n >= 2 { ScaleUp(n as real - 1.02, 0.0, LINE_HEIGHT * spacing); }
  }

  /** ... and exactly when they do for any count and spacing, none and negative ones included. */
  lemma MonotoneExactly(f: Frame, spacing: real, n: int)
    requires spacing > 0.0
    ensures (forall sz, sz' :: 0 < sz' <= sz && n <= Lines(f, sz, spacing) ==> n <= Lines(f, sz', spacing)) <==>
      0.0 <= LineShare(n, spacing) || 0.0 <= Height(f) || LineShare(n, spacing) * Pt(1) <= Height(f)
    ensures (forall sz, sz' :: 0 < sz' <= sz && n <= Columns(f, sz) ==> n <= Columns(f, sz')) <==>
      0 <= n || 0.0 <= Width(f) || ColumnShare(n) * Pt(1) <= Width(f)
  {
    hide Lines, Columns, LineShare, ColumnShare, Pt;
    forall sz | 0 < sz
      ensures n <= Lines(f, sz, spacing) <==> LineShare(n, spacing) * Pt(sz) <= Height(f)
      ensures n <= Columns(f, sz) <==> ColumnShare(n) * Pt(sz) <= Width(f)
    {
      AsShare(f, sz, spacing, n);
    }
    ShrinksExactly(LineShare(n, spacing), Height(f));
    ShrinksExactly(ColumnShare(n), Width(f));
    ShareSigns(n, spacing);
  }

  /** So the number itself, once negative, can shrink with the size: a frame of no height
      under an inset of twelve points. */
  lemma LowFrame()
    ensures var f := Frame(0, 0, 0, 152400, 0);
            Lines(f, 1000, 1.0) == -2 && Lines(f, 500, 1.0) == -3
  {
  }

  // --------------------------------------------------------------------------- suggest

  /** The inner `fits`. */
  predicate Fits(f: Frame, n: int, wide: int, sz: int, spacing: real)
    requires sz > 0 && spacing > 0.0
  {
    && n <= ((Height(f) - 1.32 * Pt(sz)) / (Pt(sz) * 1.2 * spacing) + 1.02).Floor
    && wide <= (Width(f) / (Pt(sz) * 0.6)).Floor
  }

  lemma FitsIsCapacity(f: Frame, n: int, wide: int, sz: int, spacing: real)
    requires sz > 0 && spacing > 0.0
    ensures Fits(f, n, wide, sz, spacing) <==> n <= Lines(f, sz, spacing) && wide <= Columns(f, sz)
  {
    assert Height(f) - 1.32 * Pt(sz) == Height(f) - Pt(sz) * GLYPH_BOX;
    var x := (Height(f) - 1.32 * Pt(sz)) / (Pt(sz) * 1.2 * spacing);
    assert x == (Height(f) - Pt(sz) * GLYPH_BOX) / Pitch(sz, spacing);
    assert x + 1.0 + 0.02 == x + 1.02;
  }

  datatype Found = Nothing | Found(sz: int, spacing: Option<real>)

  /** A size the search may take: under the bound, half points below it, and code-sized. */
  predicate Candidate(sz: int, from: int) {
    MIN_CODE_SZ <= sz <= from && (from - sz) % 50 == 0
  }

  /** The two loops of `suggest` for a box of n lines: the largest size below the present one
      that fits at the box's own spacing, or else the largest that fits at single spacing. */
  method Suggest(f: Frame, n: int, wide: int, current: int, spacing: real) returns (got: Found)
    requires spacing > 0.0
    ensures got.Found? && got.spacing.None? ==>
      && Candidate(got.sz, current - 50) && Fits(f, n, wide, got.sz, spacing)
      && forall s :: got.sz < s && Candidate(s, current - 50) ==> !Fits(f, n, wide, s, spacing)
    ensures got.Found? && got.spacing.Some? ==>
      && got.spacing.value == 1.0 < spacing && Candidate(got.sz, Start(current)) && Fits(f, n, wide, got.sz, 1.0)
      && (forall s :: Candidate(s, current - 50) ==> !Fits(f, n, wide, s, spacing))
      && forall s :: got.sz < s && Candidate(s, Start(current)) ==> !Fits(f, n, wide, s, 1.0)
    ensures got.Nothing? ==>
      && (forall s :: Candidate(s, current - 50) ==> !Fits(f, n, wide, s, spacing))
      && (spacing > 1.0 ==> forall s :: Candidate(s, Start(current)) ==> !Fits(f, n, wide, s, 1.0))
  {
    hide Fits;
    got := Nothing;
    var sz := current;
    while sz >= MIN_CODE_SZ && got.Nothing?
      invariant (current - sz) % 50 == 0 && sz <= current
      invariant got.Nothing? ==> forall s :: sz < s && Candidate(s, current - 50) ==> !Fits(f, n, wide, s, spacing)
      invariant got.Found? ==> got.spacing.None? && Candidate(got.sz, current - 50) && Fits(f, n, wide, got.sz, spacing)
      invariant got.Found? ==> forall s :: got.sz < s && Candidate(s, current - 50) ==> !Fits(f, n, wide, s, spacing)
      decreases sz
    {
      if Fits(f, n, wide, sz, spacing) && sz < current {
        got := Found(sz, None);
      }
      sz := sz - 50;
    }
    if got.Found? { return; }
    sz := Start(current);
    while sz >= MIN_CODE_SZ && got.Nothing? && spacing > 1.0
      invariant (Start(current) - sz) % 50 == 0 && sz <= Start(current)
      invariant got.Nothing? ==> forall s :: sz < s && Candidate(s, Start(current)) ==> !Fits(f, n, wide, s, 1.0)
      invariant got.Found? ==> got.spacing == Some(1.0) && spacing > 1.0
      invariant got.Found? ==> Candidate(got.sz, Start(current)) && Fits(f, n, wide, got.sz, 1.0)
      invariant got.Found? ==> forall s :: got.sz < s && Candidate(s, Start(current)) ==> !Fits(f, n, wide, s, 1.0)
      decreases sz
    {
      if Fits(f, n, wide, sz, 1.0) {
        got := Found(sz, Some(1.0));
      }
      sz := sz - 50;
    }
  }

  function Start(current: int): int {
    if current > MIN_CODE_SZ then current else MIN_CODE_SZ
  }

  // -------------------------------------------------------------------------- fit_font

  /** `op_fit_font` with a size, on a code box of n lines: the floor and the half-point grid
      of `size_shape`, the range of the spacing, and the capacity at the new size. */
  predicate FitFontAccepts(f: Frame, n: int, wide: int, sz: int, lineSpacing: Option<real>, spacing: real)
    requires spacing > 0.0
  {
    && MIN_CODE_SZ <= sz && sz % 50 == 0
    && (lineSpacing.Some? ==> 0.8 <= lineSpacing.value <= 1.5)
    && var after := if lineSpacing.Some? then lineSpacing.value else spacing;
       n <= Lines(f, sz, after) && wide <= Columns(f, sz)
  }

  /** What the search finds, the operation accepts exactly when it is a half-point size;
      it is one whenever the present size is. */
  lemma SuggestionAccepted(f: Frame, n: int, wide: int, current: int, spacing: real, got: Found)
    requires spacing > 0.0 && got.Found?
    requires got.spacing.None? ==> Candidate(got.sz, current - 50) && Fits(f, n, wide, got.sz, spacing)
    requires got.spacing.Some? ==>
      got.spacing.value == 1.0 && Candidate(got.sz, Start(current)) && Fits(f, n, wide, got.sz, 1.0)
    ensures FitFontAccepts(f, n, wide, got.sz, got.spacing, spacing) <==> got.sz % 50 == 0
    ensures current % 50 == 0 ==> got.sz % 50 == 0
  {
    hide Fits, Lines, Columns;
    FitsIsCapacity(f, n, wide, got.sz, if got.spacing.Some? then 1.0 else spacing);
  }

  /** With sizes on the half-point grid, the size found is the largest of them below the
      present one that the capacity check would accept. */
  lemma SuggestionLargest(f: Frame, n: int, wide: int, current: int, spacing: real, sz: int, s: int)
    requires spacing > 0.0 && current % 50 == 0
    requires forall t :: sz < t && Candidate(t, current - 50) ==> !Fits(f, n, wide, t, spacing)
    requires sz < s < current
    ensures !FitFontAccepts(f, n, wide, s, None, spacing)
  {
    hide Fits, Lines, Columns;
    if MIN_CODE_SZ <= s && s % 50 == 0 {
      FitsIsCapacity(f, n, wide, s, spacing);
      assert Candidate(s, current - 50);
    }
  }
}
