/** A printed record as a sequence of pieces, and the machines that take a record piece by piece. */
module Pieces {
  import opened Text

  datatype Piece = Line(text: string) | TildeStr(text: string)

  function PieceText(p: Piece): string {
    match p
    case Line(s) => s + "\n"
    case TildeStr(s) => s + "~\n"
  }

  function Render(ps: seq<Piece>): string {
    if ps == [] then "" else PieceText(ps[0]) + Render(ps[1..])
  }

  lemma {:induction false} RenderConcat(ps: seq<Piece>, qs: seq<Piece>)
    ensures Render(ps + qs) == Render(ps) + Render(qs)
  {
    if ps == [] {
      assert ps + qs == qs;
    } else {
      assert (ps + qs)[1..] == ps[1..] + qs;
      RenderConcat(ps[1..], qs);
      Assoc(PieceText(ps[0]), Render(ps[1..]), Render(qs));
    }
  }

  /** The pieces with the line ends of their texts normalised. */
  function UnixPiece(p: Piece): Piece {
    match p
    case Line(s) => p
    case TildeStr(s) => TildeStr(Unix(s))
  }

  function UnixPieces(ps: seq<Piece>): seq<Piece> {
    if ps == [] then [] else [UnixPiece(ps[0])] + UnixPieces(ps[1..])
  }

  lemma {:induction false} UnixPiecesConcat(ps: seq<Piece>, qs: seq<Piece>)
    ensures UnixPieces(ps + qs) == UnixPieces(ps) + UnixPieces(qs)
  {
    if ps == [] {
      assert ps + qs == qs;
    } else {
      assert (ps + qs)[1..] == ps[1..] + qs;
      UnixPiecesConcat(ps[1..], qs);
    }
  }

  function Mapped<T>(parts: seq<T>, f: T -> T): seq<T> {
    if parts == [] then [] else [f(parts[0])] + Mapped(parts[1..], f)
  }

  /** When normalising the pieces of each part is the same as printing the part under f, so it is
      for a whole list. */
  lemma {:induction false} UnixAllPieces<T(!new)>(parts: seq<T>, pieces: T -> seq<Piece>, f: T -> T)
    requires forall x: T :: UnixPieces(pieces(x)) == pieces(f(x))
    ensures UnixPieces(AllPieces(parts, pieces)) == AllPieces(Mapped(parts, f), pieces)
  {
    if parts != [] {
      UnixPiecesConcat(pieces(parts[0]), AllPieces(parts[1..], pieces));
      UnixAllPieces(parts[1..], pieces, f);
    }
  }

  /** Mapping changes nothing exactly when it changes no part. */
  lemma MappedSame<T>(parts: seq<T>, f: T -> T)
    ensures |Mapped(parts, f)| == |parts|
    ensures forall i | 0 <= i < |parts| :: Mapped(parts, f)[i] == f(parts[i])
    ensures Mapped(parts, f) == parts <==> forall i | 0 <= i < |parts| :: f(parts[i]) == parts[i]
  {
    if parts != [] {
      MappedSame(parts[1..], f);
    }
  }

  /** The pieces of a list of parts, in order. */
  function AllPieces<T>(parts: seq<T>, pieces: T -> seq<Piece>): seq<Piece> {
    if parts == [] then [] else pieces(parts[0]) + AllPieces(parts[1..], pieces)
  }

  /** The machine after all of ps, if step accepts each of them in turn. */
  function Chain<M>(step: (M, Piece) -> Option<M>, m: M, ps: seq<Piece>): Option<M>
    decreases |ps|
  {
    if ps == [] then Some(m)
    else
      match step(m, ps[0])
      case None => None
      case Some(m') => Chain(step, m', ps[1..])
  }

  lemma {:induction false} Extend<M>(step: (M, Piece) -> Option<M>, m: M, ps: seq<Piece>, m1: M, qs: seq<Piece>)
    requires Chain(step, m, ps) == Some(m1)
    ensures Chain(step, m, ps + qs) == Chain(step, m1, qs)
    decreases |ps|
  {
    if ps == [] {
      assert ps + qs == qs;
    } else {
      assert (ps + qs)[1..] == ps[1..] + qs;
      Extend(step, step(m, ps[0]).value, ps[1..], m1, qs);
    }
  }

  lemma Extend3<M>(step: (M, Piece) -> Option<M>,
                   m: M, ps: seq<Piece>, m1: M, qs: seq<Piece>, m2: M, rs: seq<Piece>)
    requires Chain(step, m, ps) == Some(m1) && Chain(step, m1, qs) == Some(m2)
    ensures Chain(step, m, ps + qs + rs) == Chain(step, m2, rs)
  {
    Extend(step, m, ps, m1, qs);
    Extend(step, m, ps + qs, m2, rs);
  }

  lemma Chain1<M>(step: (M, Piece) -> Option<M>, m: M, a: Piece)
    ensures Chain(step, m, [a]) == step(m, a)
  {
    assert [a][1..] == [];
  }

  lemma Chain2<M>(step: (M, Piece) -> Option<M>, m0: M, a: Piece, m1: M, b: Piece)
    requires step(m0, a) == Some(m1)
    ensures Chain(step, m0, [a, b]) == step(m1, b)
  {
    assert [a, b][1..] == [b];
    Chain1(step, m1, b);
  }

  lemma Chain3<M>(step: (M, Piece) -> Option<M>, m0: M, a: Piece, m1: M, b: Piece, m2: M, c: Piece)
    requires step(m0, a) == Some(m1) && step(m1, b) == Some(m2)
    ensures Chain(step, m0, [a, b, c]) == step(m2, c)
  {
    assert [a, b, c][1..] == [b, c];
    Chain2(step, m1, b, m2, c);
  }

  lemma Chain4<M>(step: (M, Piece) -> Option<M>,
                  m0: M, a: Piece, m1: M, b: Piece, m2: M, c: Piece, m3: M, d: Piece)
    requires step(m0, a) == Some(m1) && step(m1, b) == Some(m2) && step(m2, c) == Some(m3)
    ensures Chain(step, m0, [a, b, c, d]) == step(m3, d)
  {
    assert [a, b, c, d][1..] == [b, c, d];
    Chain3(step, m1, b, m2, c, m3, d);
  }

  lemma Shift<T>(done: seq<T>, left: seq<T>)
    requires left != []
    ensures done + [left[0]] + left[1..] == done + left
  {
  }

  lemma UnixPieces2(a: Piece, b: Piece)
    ensures UnixPieces([a]) == [UnixPiece(a)]
    ensures UnixPieces([a, b]) == [UnixPiece(a), UnixPiece(b)]
  {
    assert [a, b][1..] == [b] && [a][1..] == [] && [b][1..] == [];
  }

  /** A section that is printed only when its text is not empty. */
  function Section(letter: string, text: string): seq<Piece> {
    if text == "" then [] else [Line(letter), TildeStr(text)]
  }

  lemma UnixSection(letter: string, t: string)
    ensures UnixPieces(Section(letter, t)) == Section(letter, Unix(t))
  {
    if t != "" {
      UnixPieces2(Line(letter), TildeStr(t));
    }
  }

  // ---------- The text of pieces ----------

  lemma Render1(p: Piece)
    ensures Render([p]) == PieceText(p)
  {
    assert PieceText(p) + "" == PieceText(p);
  }

  lemma Render2(p: Piece, q: Piece)
    ensures Render([p, q]) == PieceText(p) + PieceText(q)
  {
    assert [p, q] == [p] + [q];
    RenderConcat([p], [q]);
    Render1(p);
    Render1(q);
  }

  lemma LineText(ps: seq<Piece>, line: string)
    ensures Render(ps + [Line(line)]) == Render(ps) + (line + "\n")
  {
    RenderConcat(ps, [Line(line)]);
    Render1(Line(line));
  }

  lemma SectionText(ps: seq<Piece>, letter: string, t: string)
    ensures Render(ps + Section(letter, t)) == if t == "" then Render(ps) else Render(ps) + (letter + "\n") + t + "~\n"
  {
    if t == "" {
      assert ps + [] == ps;
    } else {
      RenderConcat(ps, Section(letter, t));
      Render2(Line(letter), TildeStr(t));
      Assoc(Render(ps), letter + "\n", t + "~\n");
      Assoc(Render(ps) + (letter + "\n"), t, "~\n");
    }
  }

  lemma NoPieces<T>(ps: seq<Piece>, parts: seq<T>, pieces: T -> seq<Piece>)
    ensures ps + AllPieces(parts[..0], pieces) == ps
  {
  }

  /** One part more in a printed list. */
  lemma GrowPieces<T>(ps: seq<Piece>, parts: seq<T>, pieces: T -> seq<Piece>, i: nat)
    requires i < |parts|
    ensures Render(ps + AllPieces(parts[..i + 1], pieces))
         == Render(ps + AllPieces(parts[..i], pieces)) + Render(pieces(parts[i]))
  {
    AllPiecesSnoc(parts[..i], parts[i], pieces);
    assert parts[..i + 1] == parts[..i] + [parts[i]];
    assert ps + AllPieces(parts[..i + 1], pieces) == (ps + AllPieces(parts[..i], pieces)) + pieces(parts[i]);
    RenderConcat(ps + AllPieces(parts[..i], pieces), pieces(parts[i]));
  }

  lemma AllPiecesSnoc<T>(parts: seq<T>, last: T, pieces: T -> seq<Piece>)
    ensures AllPieces(parts + [last], pieces) == AllPieces(parts, pieces) + pieces(last)
  {
    if parts == [] {
      assert [last][1..] == [];
    } else {
      assert (parts + [last])[1..] == parts[1..] + [last];
      AllPiecesSnoc(parts[1..], last, pieces);
    }
  }

  lemma UnixPieces4(a: Piece, b: Piece, c: Piece, d: Piece)
    ensures UnixPieces([a, b, c, d]) == [UnixPiece(a), UnixPiece(b), UnixPiece(c), UnixPiece(d)]
  {
    UnixPieces2(a, b);
    UnixPieces2(c, d);
    UnixPiecesConcat([a, b], [c, d]);
    assert [a, b, c, d] == [a, b] + [c, d];
  }

  lemma Render4(a: Piece, b: Piece, c: Piece, d: Piece)
    ensures Render([a, b, c, d]) == (PieceText(a) + PieceText(b)) + (PieceText(c) + PieceText(d))
  {
    assert [a, b, c, d] == [a, b] + [c, d];
    RenderConcat([a, b], [c, d]);
    Render2(a, b);
    Render2(c, d);
  }
}
