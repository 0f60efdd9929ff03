/**
 * src/custFonts.tsx: `PressStart2PFont` lays the first child string out as bitmap glyphs. The
 * loop is specified by `Run`, a left fold of one `Step` per character; the glyph paths are
 * opaque, so an emitted path is the character it draws and its x offset.
 */
module Fonts {
  import opened Results

  const Gap: int := 1
  /** The advance of a space, before the gap. */
  const SpaceAdvance: int := 6
  /** `Glyphs['A'].height`; every glyph is 7 high. */
  const GlyphHeight: int := 7

  /** The single-character keys of `Glyphs` ('Thorn' is a key no single character can name). */
  predicate InGlyphTable(c: char) {
    c == ' ' || ('A' <= c <= 'Z') || ('0' <= c <= '9') || c in "!,.?*\\:;/_()+" || c == '\U{2014}'
  }

  /** `Glyphs[character].width`, or nothing when there is no glyph (lower case, for one). */
  function GlyphWidth(c: char): Option<int> {
    if InGlyphTable(c) then Some(6) else None
  }

  /**
   * Every glyph of the table is 6 wide; upper-case letters and digits have one, lower-case
   * letters do not, so they are skipped.
   */
  lemma GlyphCoverage(c: char)
    ensures GlyphWidth(c).Some? ==> GlyphWidth(c).value == 6
    ensures ('A' <= c <= 'Z' || '0' <= c <= '9') ==> GlyphWidth(c) == Some(6)
    ensures 'a' <= c <= 'z' ==> GlyphWidth(c).None?
  {
  }

  /** A character the loop draws: not a space, and in the table. */
  predicate Drawn(c: char) {
    c != ' ' && GlyphWidth(c).Some?
  }

  /** One `<path>`: the glyph of `glyph`, translated to `x`. */
  datatype Placement = Placement(glyph: char, x: int)

  /** The loop's variables: `xOffset`, `width` and `characters`. */
  datatype Pen = Pen(xOffset: int, width: int, characters: seq<Placement>)

  /** One iteration of the `forEach` callback. */
  function Step(p: Pen, c: char): Pen {
    if c == ' ' then p.(xOffset := p.xOffset + SpaceAdvance + Gap)
    else
      match GlyphWidth(c)
      case None => p
      case Some(w) =>
        var x := p.xOffset + w + Gap;
        Pen(x, x, p.characters + [Placement(c, p.xOffset)])
  }

  /** A space only advances the pen, a character without a glyph changes nothing, a drawn one adds a path. */
  lemma StepCases(p: Pen, c: char)
    ensures c == ' ' ==> Step(p, c) == p.(xOffset := p.xOffset + 7)
    ensures c != ' ' && !Drawn(c) ==> Step(p, c) == p
    ensures Drawn(c) ==> Step(p, c) == Pen(p.xOffset + 7, p.xOffset + 7, p.characters + [Placement(c, p.xOffset)])
  {
    GlyphCoverage(c);
  }

  /** The loop run over `s` from the initial `xOffset = 0`, `width = 0`, no paths. */
  function Run(s: seq<char>): Pen {
    if s == [] then Pen(0, 0, []) else Step(Run(s[..|s| - 1]), s[|s| - 1])
  }

  /** The rendered image: the paths, the unscaled width and height, and the scaled sizes. */
  datatype Image = Image(characters: seq<Placement>, imageWidth: int, imageHeight: int,
                         scaledWidth: int, scaledHeight: int)

  /**
   * The result for one line: the trailing gap is removed from the width, then both sizes scale.
   * There is one path per drawn character; the width is -1 exactly when nothing is drawn, and
   * otherwise spans the last glyph, so it is at least one glyph wide; the scaled size is
   * (width * size) by (7 * size).
   */
  function LayoutOf(line: string, size: int): (r: Image)
    ensures |r.characters| == |DrawnChars(line)|
    ensures r.imageWidth == -1 <==> DrawnChars(line) == []
    ensures DrawnChars(line) != [] ==> r.imageWidth >= 6 && r.imageWidth == r.characters[|r.characters| - 1].x + 6
    ensures r.imageHeight == 7
    ensures r.scaledHeight == 7 * size && r.scaledWidth == r.imageWidth * size
  {
    var p := Run(line);
    RunShape(line);
    Image(p.characters, p.width - Gap, GlyphHeight, (p.width - Gap) * size, GlyphHeight * size)
  }

  /**
   * `PressStart2PFont({ children, size = 2 })`. Only `children[0]` is laid out; with no child,
   * `children[0].split('')` throws, which is `None`.
   */
  method PressStart2PFont(children: seq<string>, size: Option<int>) returns (r: Option<Image>)
    ensures children == [] <==> r.None?
    ensures children != [] ==> r == Some(LayoutOf(children[0], GetOr(size, 2)))
  {
    if children == [] {
      return None;
    }
    var line := children[0];
    var width := 0;
    var xOffset := 0;
    var characters: seq<Placement> := [];
    for i := 0 to |line|
      invariant Pen(xOffset, width, characters) == Run(line[..i])
    {
      assert line[..i + 1][..i] == line[..i];
      var character := line[i];
      if character == ' ' {
        xOffset := xOffset + SpaceAdvance + Gap;
        continue;
      }
      var glyph := GlyphWidth(character);
      if glyph.None? {
        continue;
      }
      characters := characters + [Placement(character, xOffset)];
      xOffset := xOffset + glyph.value + Gap;
      width := xOffset;
    }
    assert line[..|line|] == line;
    width := width - Gap;
    var s := GetOr(size, 2);
    r := Some(Image(characters, width, GlyphHeight, width * s, GlyphHeight * s));
  }

  /** The drawn characters of `s`, in order. */
  function DrawnChars(s: seq<char>): seq<char> {
    if s == [] then [] else DrawnChars(s[..|s| - 1]) + (if Drawn(s[|s| - 1]) then [s[|s| - 1]] else [])
  }

  /**
   * One path per drawn character, in input order; offsets strictly increase, start at 0 or
   * later, and lie before the pen; the width is the pen position after the last drawn glyph
   * (0 when none was drawn).
   */
  lemma {:induction false} RunShape(s: seq<char>)
    ensures var p := Run(s);
      && |p.characters| == |DrawnChars(s)|
      && (forall i :: 0 <= i < |p.characters| ==> p.characters[i].glyph == DrawnChars(s)[i])
      && (forall i, j :: 0 <= i < j < |p.characters| ==> p.characters[i].x < p.characters[j].x)
      && (forall i :: 0 <= i < |p.characters| ==> 0 <= p.characters[i].x && p.characters[i].x + 7 <= p.xOffset)
      && (p.characters == [] ==> p.width == 0)
      && (p.characters != [] ==> p.width == p.characters[|p.characters| - 1].x + 7)
      && 0 <= p.width <= p.xOffset
  {
    RunGlyphs(s);
    RunGeometry(s);
  }

  /** The paths name the drawn characters, in order. */
  lemma {:induction false} RunGlyphs(s: seq<char>)
    ensures |Run(s).characters| == |DrawnChars(s)|
    ensures forall i :: 0 <= i < |Run(s).characters| ==> Run(s).characters[i].glyph == DrawnChars(s)[i]
  {
    if s != [] {
      var init, c := s[..|s| - 1], s[|s| - 1];
      RunGlyphs(init);
      StepCases(Run(init), c);
    }
  }

  /** The offsets increase and stay behind the pen; the width is the right edge of the last path. */
  lemma {:induction false} RunGeometry(s: seq<char>)
    ensures var p := Run(s);
      && (forall i, j :: 0 <= i < j < |p.characters| ==> p.characters[i].x < p.characters[j].x)
      && (forall i :: 0 <= i < |p.characters| ==> 0 <= p.characters[i].x && p.characters[i].x + 7 <= p.xOffset)
      && (p.characters == [] ==> p.width == 0)
      && (p.characters != [] ==> p.width == p.characters[|p.characters| - 1].x + 7)
      && 0 <= p.width <= p.xOffset
  {
    if s != [] {
      var init, c := s[..|s| - 1], s[|s| - 1];
      RunGeometry(init);
      StepCases(Run(init), c);
    }
  }

  /** Trailing spaces move the pen but change neither the paths nor the width. */
  lemma {:induction false} TrailingSpacesIgnored(s: seq<char>, n: nat)
    ensures Run(s + seq(n, _ => ' ')).characters == Run(s).characters
    ensures Run(s + seq(n, _ => ' ')).width == Run(s).width
  {
    if n == 0 {
      assert s + seq(n, _ => ' ') == s;
    } else {
      var t := s + seq(n, _ => ' ');
      assert t[..|t| - 1] == s + seq(n - 1, _ => ' ');
      assert t[|t| - 1] == ' ';
      TrailingSpacesIgnored(s, n - 1);
    }
  }

  /** A line that draws nothing has width -1. */
  lemma NothingDrawnWidth(s: seq<char>, size: int)
    requires DrawnChars(s) == []
    ensures LayoutOf(s, size).imageWidth == -1 && LayoutOf(s, size).characters == []
  {
    RunShape(s);
  }

  /** A line of n drawn characters and no spaces is 7n - 1 wide. */
  lemma {:induction false} AllDrawnWidth(s: seq<char>, size: int)
    requires forall i :: 0 <= i < |s| ==> Drawn(s[i])
    ensures Run(s).width == Run(s).xOffset == 7 * |s|
    ensures LayoutOf(s, size).imageWidth == 7 * |s| - 1
  {
    if s != [] {
      AllDrawnWidth(s[..|s| - 1], size);
    }
  }
}
