/** The extra descriptions that rooms and objects carry. */
module Extradescs {
  import opened Text
  import opened Pieces

  datatype Extradesc = Extradesc(keywords: string, description: string)

  function ExtradescPieces(x: Extradesc): seq<Piece> {
    [Line("E")] + [TildeStr(x.keywords), TildeStr(x.description)]
  }

  function ExtradescText(x: Extradesc): string {
    "E\n" + x.keywords + "~\n" + x.description + "~\n"
  }

  predicate ExtradescOk(strict: bool, x: Extradesc) {
    TextOk(strict, x.keywords) && TextOk(strict, x.description)
  }

  /** x with the line ends of its texts normalised. */
  function UnixExtradesc(x: Extradesc): Extradesc {
    Extradesc(Unix(x.keywords), Unix(x.description))
  }

  lemma UnixExtradescPieces(x: Extradesc)
    ensures UnixPieces(ExtradescPieces(x)) == ExtradescPieces(UnixExtradesc(x))
  {
    var texts := [TildeStr(x.keywords), TildeStr(x.description)];
    UnixPieces2(Line("E"), Line("E"));
    UnixPieces2(texts[0], texts[1]);
    UnixPiecesConcat([Line("E")], texts);
  }

  lemma UnixExtradescOk(x: Extradesc)
    requires ExtradescOk(false, x)
    ensures ExtradescOk(false, UnixExtradesc(x))
    ensures ExtradescOk(true, x) <==> UnixExtradesc(x) == x
  {
    NoTildeInUnix(x.keywords);
    NoTildeInUnix(x.description);
  }

  lemma UnixExtradescsOk(xs: seq<Extradesc>)
    requires forall i | 0 <= i < |xs| :: ExtradescOk(false, xs[i])
    ensures var us := Mapped(xs, UnixExtradesc);
      && (forall i | 0 <= i < |us| :: ExtradescOk(false, us[i]))
      && ((forall i | 0 <= i < |xs| :: ExtradescOk(true, xs[i])) <==> us == xs)
  {
    MappedSame(xs, UnixExtradesc);
    forall i | 0 <= i < |xs|
      ensures ExtradescOk(false, UnixExtradesc(xs[i]))
      ensures ExtradescOk(true, xs[i]) <==> UnixExtradesc(xs[i]) == xs[i]
    {
      UnixExtradescOk(xs[i]);
    }
  }

  lemma ExtradescTextOf(x: Extradesc)
    ensures Render(ExtradescPieces(x)) == ExtradescText(x)
  {
    var texts := [TildeStr(x.keywords), TildeStr(x.description)];
    assert ExtradescPieces(x) == [Line("E")] + texts;
    RenderConcat([Line("E")], texts);
    Render1(Line("E"));
    assert PieceText(Line("E")) == "E\n";
    Render2(TildeStr(x.keywords), TildeStr(x.description));
    Flat2("E\n", x.keywords, x.description);
  }

  lemma Flat2(a: string, b: string, c: string)
    ensures a + ((b + "~\n") + (c + "~\n")) == a + b + "~\n" + c + "~\n"
  {
  }

  /** Adds extra descriptions to a growing record. */
  method AddExtradescs(extradescs: seq<Extradesc>, before: string, ghost ps: seq<Piece>) returns (result: string)
    requires before == Render(ps)
    ensures result == Render(ps + AllPieces(extradescs, ExtradescPieces))
  {
    result := before;
    NoPieces(ps, extradescs, ExtradescPieces);
    for i := 0 to |extradescs|
      invariant result == Render(ps + AllPieces(extradescs[..i], ExtradescPieces))
    {
      ExtradescTextOf(extradescs[i]);
      GrowPieces(ps, extradescs, ExtradescPieces, i);
      result := result + ExtradescText(extradescs[i]);
    }
    assert extradescs[..|extradescs|] == extradescs;
  }
}
