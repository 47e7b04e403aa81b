/** What leaves the machine at a sync: quoted spans and mined literals become placeholders. */
module SyncScrub {
  import opened Options

  predicate IsHex(c: char) {
    '0' <= c <= '9' || 'a' <= c <= 'f'
  }

  /** Twelve hexadecimal digits of a digest. */
  type ShortHash = h: string | |h| == 12 && forall i :: 0 <= i < |h| ==> IsHex(h[i]) witness "000000000000"

  /** The digest of a value, not modelled further. */
  type Hash = string -> ShortHash

  const OPEN := "[stripped:"

  function Placeholder(h: ShortHash): string {
    OPEN + h + "]"
  }

  predicate IsPlaceholder(s: string) {
    |s| == 23 && s[..10] == OPEN && (forall i :: 10 <= i < 22 ==> IsHex(s[i])) && s[22] == ']'
  }

  /** A mined literal as it is pushed. */
  function StrippedLiteral(hash: Hash, value: string): string {
    if IsPlaceholder(value) then value else Placeholder(hash(value))
  }

  lemma PlaceholderIs(h: ShortHash)
    ensures IsPlaceholder(Placeholder(h))
  {
    var p := Placeholder(h);
    assert p[..10] == OPEN;
    assert forall i :: 0 <= i < 12 ==> p[10 + i] == h[i];
    forall i | 10 <= i < 22 ensures IsHex(p[i]) {
      assert p[i] == h[i - 10];
    }
  }

  /** What stands for a value: a placeholder for itself, anything else by the digest of all of it. */
  predicate Hides(hash: Hash, value: string, shown: string) {
    if IsPlaceholder(value) then shown == value else shown == "[stripped:" + hash(value) + "]"
  }

  lemma LiteralsStripOnce(hash: Hash, value: string)
    ensures IsPlaceholder(StrippedLiteral(hash, value)) && Hides(hash, value, StrippedLiteral(hash, value))
    ensures StrippedLiteral(hash, StrippedLiteral(hash, value)) == StrippedLiteral(hash, value)
  {
    if !IsPlaceholder(value) {
      PlaceholderIs(hash(value));
    }
  }

  // ---- the quote scan --------------------------------------------------------------------

  predicate IsQuote(c: char) {
    c == '\'' || c == '"'
  }

  /** The first `q` at or after `from`; the length of the text if there is none. */
  function Find(s: string, q: char, from: nat): (e: nat)
    requires from <= |s|
    ensures from <= e <= |s| && (e < |s| ==> s[e] == q) && forall i :: from <= i < e ==> s[i] != q
    decreases |s| - from
  {
    if from == |s| || s[from] == q then from else Find(s, q, from + 1)
  }

  /** The pattern matches `s[p..e + 1]`: a quote, one or more other characters, the same quote. */
  predicate MatchAt(s: string, p: nat, e: nat) {
    && p + 1 < e < |s| && IsQuote(s[p]) && s[e] == s[p]
    && forall i :: p < i < e ==> s[i] != s[p]
  }

  ghost predicate Opens(s: string, p: nat) {
    exists e :: MatchAt(s, p, e)
  }

  /** A text as the scan sees it: quoted spans and the characters outside them. */
  datatype Piece = Plain(c: char) | Span(quote: char, body: string)

  function Text(piece: Piece): string {
    match piece
    case Plain(c) => [c]
    case Span(quote, body) => [quote] + body + [quote]
  }

  function Flatten(pieces: seq<Piece>): string {
    if pieces == [] then [] else Text(pieces[0]) + Flatten(pieces[1..])
  }

  function FirstClose(s: string): nat
    requires s != []
  {
    Find(s, s[0], 1)
  }

  lemma FirstMatch(s: string, e: nat)
    requires s != []
    ensures MatchAt(s, 0, e) <==> IsQuote(s[0]) && e == FirstClose(s) && 1 < e < |s|
  {
  }

  lemma FirstOpens(s: string)
    requires s != []
    ensures Opens(s, 0) <==> IsQuote(s[0]) && 1 < FirstClose(s) < |s|
  {
    FirstMatch(s, FirstClose(s));
    if e :| MatchAt(s, 0, e) {
      FirstMatch(s, e);
    }
  }

  /** The leftmost scan. */
  function Pieces(s: string): seq<Piece>
    decreases |s|
  {
    if s == [] then []
    else
      var e := FirstClose(s);
      if IsQuote(s[0]) && 1 < e < |s| then [Span(s[0], s[1..e])] + Pieces(s[e + 1..])
      else [Plain(s[0])] + Pieces(s[1..])
  }

  function ScrubPiece(hash: Hash, piece: Piece): Piece {
    if piece.Span? && !IsPlaceholder(piece.body) then Span(piece.quote, Placeholder(hash(piece.body))) else piece
  }

  function ScrubPieces(hash: Hash, pieces: seq<Piece>): (r: seq<Piece>)
    ensures |r| == |pieces| && forall i :: 0 <= i < |r| ==> r[i] == ScrubPiece(hash, pieces[i])
  {
    if pieces == [] then [] else [ScrubPiece(hash, pieces[0])] + ScrubPieces(hash, pieces[1..])
  }

  /** The substitution: each match replaced, everything between copied. */
  function Scrub(hash: Hash, s: string): string
    decreases |s|
  {
    if s == [] then []
    else
      var e := FirstClose(s);
      if IsQuote(s[0]) && 1 < e < |s| then
        var body := s[1..e];
        (if IsPlaceholder(body) then s[..e + 1] else [s[0]] + Placeholder(hash(body)) + [s[0]])
            + Scrub(hash, s[e + 1..])
      else [s[0]] + Scrub(hash, s[1..])
  }

  // ---- the scan is the pattern's ---------------------------------------------------------

  function Offset(pieces: seq<Piece>, i: nat): nat
    requires i <= |pieces|
  {
    if i == 0 then 0 else Offset(pieces, i - 1) + |Text(pieces[i - 1])|
  }

  /** A piece is where the pattern allows it: a span where it matches, a plain character where it
      does not. */
  ghost predicate PieceOk(s: string, p: nat, piece: Piece) {
    if piece.Plain? then !Opens(s, p) else MatchAt(s, p, p + |piece.body| + 1)
  }

  /** A division of `s` that a left-to-right scan for the pattern makes. */
  ghost predicate IsScan(s: string, pieces: seq<Piece>) {
    Flatten(pieces) == s && AllOk(s, pieces)
  }

  ghost predicate AllOk(s: string, pieces: seq<Piece>) {
    forall i :: 0 <= i < |pieces| ==> PieceOk(s, Offset(pieces, i), pieces[i])
  }

  lemma {:induction false} OffsetTail(pieces: seq<Piece>, i: nat)
    requires 0 < i <= |pieces|
    ensures Offset(pieces, i) == |Text(pieces[0])| + Offset(pieces[1..], i - 1)
  {
    if i > 1 {
      OffsetTail(pieces, i - 1);
    }
  }

  lemma MatchShift(s: string, k: nat, p: nat, e: nat)
    requires k <= |s|
    ensures MatchAt(s[k..], p, e) <==> MatchAt(s, k + p, k + e)
  {
    if MatchAt(s[k..], p, e) {
      forall i | k + p < i < k + e ensures s[i] != s[k + p] {
        assert s[k..][i - k] == s[i];
      }
    }
  }

  lemma OpensShift(s: string, k: nat, p: nat)
    requires k <= |s|
    ensures Opens(s[k..], p) <==> Opens(s, k + p)
  {
    var q := k + p;
    if Opens(s[k..], p) {
      var e: nat :| MatchAt(s[k..], p, e);
      MatchShift(s, k, p, e);
    }
    if Opens(s, q) {
      var e: nat :| MatchAt(s, q, e);
      MatchShift(s, k, p, e - k);
    }
  }

  lemma PieceShift(s: string, k: nat, p: nat, piece: Piece)
    requires k <= |s|
    ensures PieceOk(s[k..], p, piece) <==> PieceOk(s, k + p, piece)
  {
    OpensShift(s, k, p);
    if piece.Span? {
      MatchShift(s, k, p, p + |piece.body| + 1);
    }
  }

  lemma ScanTail(s: string, pieces: seq<Piece>)
    requires pieces != [] && |Text(pieces[0])| <= |s| && s[..|Text(pieces[0])|] == Text(pieces[0])
    ensures var k := |Text(pieces[0])|;
            IsScan(s, pieces) <==> IsScan(s[k..], pieces[1..]) && PieceOk(s, 0, pieces[0])
  {
    var k := |Text(pieces[0])|;
    assert s == s[..k] + s[k..];
    assert Flatten(pieces) == s <==> Flatten(pieces[1..]) == s[k..];
    AllOkTail(s, pieces);
  }

  lemma AllOkTail(s: string, pieces: seq<Piece>)
    requires pieces != [] && |Text(pieces[0])| <= |s|
    ensures AllOk(s, pieces) <==> AllOk(s[|Text(pieces[0])|..], pieces[1..]) && PieceOk(s, 0, pieces[0])
  {
    var k, tail := |Text(pieces[0])|, pieces[1..];
    forall i | 0 < i < |pieces|
      ensures PieceOk(s, Offset(pieces, i), pieces[i]) <==> PieceOk(s[k..], Offset(tail, i - 1), tail[i - 1])
    {
      LaterOk(s, pieces, i);
    }
    if AllOk(s[k..], tail) && PieceOk(s, 0, pieces[0]) {
      forall i | 0 <= i < |pieces| ensures PieceOk(s, Offset(pieces, i), pieces[i]) {
        assert i > 0 ==> PieceOk(s[k..], Offset(tail, i - 1), tail[i - 1]);
      }
    }
    if AllOk(s, pieces) {
      forall i | 0 <= i < |tail| ensures PieceOk(s[k..], Offset(tail, i), tail[i]) {
        assert PieceOk(s, Offset(pieces, i + 1), pieces[i + 1]);
      }
      assert PieceOk(s, Offset(pieces, 0), pieces[0]);
    }
  }

  lemma LaterOk(s: string, pieces: seq<Piece>, i: nat)
    requires 0 < i < |pieces| && |Text(pieces[0])| <= |s|
    ensures PieceOk(s, Offset(pieces, i), pieces[i]) <==>
              PieceOk(s[|Text(pieces[0])|..], Offset(pieces[1..], i - 1), pieces[1..][i - 1])
  {
    var k, q, piece := |Text(pieces[0])|, Offset(pieces[1..], i - 1), pieces[1..][i - 1];
    OffsetTail(pieces, i);
    assert Offset(pieces, i) == k + q && pieces[i] == piece;
    PieceShift(s, k, q, piece);
  }

  /** The first piece and the scan of what is left. */
  lemma FirstPiece(s: string)
    requires s != []
    ensures var first := Pieces(s)[0];
            && Pieces(s) != [] && 0 < |Text(first)| <= |s| && s[..|Text(first)|] == Text(first)
            && Pieces(s) == [first] + Pieces(s[|Text(first)|..]) && Pieces(s)[1..] == Pieces(s[|Text(first)|..])
            && PieceOk(s, 0, first)
  {
    var e := FirstClose(s);
    FirstOpens(s);
    FirstMatch(s, e);
    if IsQuote(s[0]) && 1 < e < |s| {
      assert s[..e + 1] == [s[0]] + s[1..e] + [s[0]];
    }
  }

  /** The pieces are the one division the pattern's leftmost scan makes. */
  lemma {:induction false} PiecesAreTheScan(s: string, pieces: seq<Piece>)
    ensures IsScan(s, pieces) <==> pieces == Pieces(s)
    decreases |s|
  {
    if s == [] {
      if pieces != [] {
        assert |Text(pieces[0])| > 0;
      }
    } else {
      FirstPiece(s);
      var first := Pieces(s)[0];
      var n := |Text(first)|;
      ScanTail(s, Pieces(s));
      PiecesAreTheScan(s[n..], Pieces(s)[1..]);
      if IsScan(s, pieces) && pieces != [] {
        assert s[..|Text(pieces[0])|] == Text(pieces[0]);
        ScanTail(s, pieces);
        SameFirst(s, pieces[0], first);
        PiecesAreTheScan(s[n..], pieces[1..]);
        assert pieces == [pieces[0]] + pieces[1..];
      }
    }
  }

  lemma SameFirst(s: string, a: Piece, first: Piece)
    requires s != [] && first == Pieces(s)[0]
    requires |Text(a)| <= |s| && s[..|Text(a)|] == Text(a)
    requires PieceOk(s, 0, a)
    ensures a == first
  {
    FirstOpens(s);
    if a.Span? {
      var n := |a.body| + 1;
      FirstMatch(s, n);
      assert MatchAt(s, 0, n);
      assert s[1..n] == s[..n + 1][1..n] == a.body;
      assert s[0] == s[..n + 1][0] == a.quote;
    } else {
      assert s[0] == s[..1][0] == a.c;
    }
  }

  // ---- scrubbing is a projection ---------------------------------------------------------

  lemma {:induction false} PiecesFlatten(s: string)
    ensures Flatten(Pieces(s)) == s
    decreases |s|
  {
    if s != [] {
      FirstPiece(s);
      var first := Pieces(s)[0];
      var n := |Text(first)|;
      PiecesFlatten(s[n..]);
      FlattenCons(first, Pieces(s[n..]));
      assert s == s[..n] + s[n..];
    }
  }

  lemma FlattenCons(piece: Piece, more: seq<Piece>)
    ensures Flatten([piece] + more) == Text(piece) + Flatten(more)
  {
    assert ([piece] + more)[1..] == more;
  }

  lemma {:induction false} ScrubIsPiecewise(hash: Hash, s: string)
    ensures Scrub(hash, s) == Flatten(ScrubPieces(hash, Pieces(s)))
    decreases |s|
  {
    if s != [] {
      var e := FirstClose(s);
      if IsQuote(s[0]) && 1 < e < |s| {
        ScrubIsPiecewise(hash, s[e + 1..]);
        ScrubSpan(hash, s);
        ScrubPiecesCons(hash, Span(s[0], s[1..e]), Pieces(s[e + 1..]));
      } else {
        ScrubIsPiecewise(hash, s[1..]);
        ScrubPiecesCons(hash, Plain(s[0]), Pieces(s[1..]));
      }
    }
  }

  lemma ScrubSpan(hash: Hash, s: string)
    requires s != [] && IsQuote(s[0]) && 1 < FirstClose(s) < |s|
    ensures var e := FirstClose(s);
            Scrub(hash, s) == Text(ScrubPiece(hash, Span(s[0], s[1..e]))) + Scrub(hash, s[e + 1..])
  {
    var e := FirstClose(s);
    assert s[..e + 1] == [s[0]] + s[1..e] + [s[0]];
  }

  lemma ScrubPiecesCons(hash: Hash, piece: Piece, more: seq<Piece>)
    ensures Flatten(ScrubPieces(hash, [piece] + more)) ==
              Text(ScrubPiece(hash, piece)) + Flatten(ScrubPieces(hash, more))
  {
    assert ([piece] + more)[1..] == more;
  }

  lemma NoQuotesInside(body: string)
    requires IsPlaceholder(body)
    ensures forall i :: 0 <= i < |body| ==> !IsQuote(body[i])
  {
    forall i | 0 <= i < |body| ensures !IsQuote(body[i]) {
      if i < 10 {
        assert body[i] == body[..10][i] == OPEN[i];
      }
    }
  }

  lemma ScrubbedSpan(hash: Hash, piece: Piece)
    requires piece.Span? && IsQuote(piece.quote)
    ensures var p := ScrubPiece(hash, piece);
            p.Span? && p.quote == piece.quote && IsPlaceholder(p.body) && p.body != []
            && forall i :: 0 <= i < |p.body| ==> !IsQuote(p.body[i])
  {
    if !IsPlaceholder(piece.body) {
      PlaceholderIs(hash(piece.body));
    }
    NoQuotesInside(ScrubPiece(hash, piece).body);
  }

  /** Scrubbing brings in no quote: a quote in the output is one of the input. */
  lemma {:induction false} NoNewQuotes(hash: Hash, s: string, q: char)
    requires IsQuote(q) && q !in s
    ensures q !in Scrub(hash, s)
    decreases |s|
  {
    if s != [] {
      var e := FirstClose(s);
      if IsQuote(s[0]) && 1 < e < |s| {
        NoNewQuotes(hash, s[e + 1..], q);
        ScrubbedSpan(hash, Span(s[0], s[1..e]));
      } else {
        NoNewQuotes(hash, s[1..], q);
      }
    }
  }

  lemma FirstKept(hash: Hash, s: string)
    requires s != []
    ensures Scrub(hash, s) != [] && Scrub(hash, s)[0] == s[0]
  {
  }

  lemma SpanPieces(q: char, body: string, rest: string)
    requires IsQuote(q) && body != [] && forall i :: 0 <= i < |body| ==> body[i] != q
    ensures Pieces([q] + body + [q] + rest) == [Span(q, body)] + Pieces(rest)
  {
    var s, e := [q] + body + [q] + rest, |body| + 1;
    assert s[e] == q && forall i :: 1 <= i < e ==> s[i] == body[i - 1];
    assert FirstClose(s) == e;
    assert s[1..e] == body && s[e + 1..] == rest;
  }

  lemma PlainPieces(c: char, rest: string)
    requires IsQuote(c) ==> c !in rest || (rest != [] && rest[0] == c)
    ensures Pieces([c] + rest) == [Plain(c)] + Pieces(rest)
  {
    var s := [c] + rest;
    var e := FirstClose(s);
    assert s[1..] == rest;
    assert forall i :: 1 <= i < |s| ==> s[i] == rest[i - 1];
  }

  /** The scan of the output finds what it found in the input, each span now a placeholder: text
      outside spans is untouched, and no quote pairs up differently. */
  lemma {:induction false} ScrubKeepsStructure(hash: Hash, s: string)
    ensures Pieces(Scrub(hash, s)) == ScrubPieces(hash, Pieces(s))
    decreases |s|
  {
    if s != [] {
      var e := FirstClose(s);
      if IsQuote(s[0]) && 1 < e < |s| {
        ScrubKeepsStructure(hash, s[e + 1..]);
        var piece := Span(s[0], s[1..e]);
        var body := ScrubPiece(hash, piece).body;
        ScrubbedSpan(hash, piece);
        ScrubSpan(hash, s);
        SpanPieces(s[0], body, Scrub(hash, s[e + 1..]));
      } else {
        ScrubKeepsStructure(hash, s[1..]);
        StaysPlain(hash, s);
        PlainPieces(s[0], Scrub(hash, s[1..]));
      }
    }
  }

  /** A quote that pairs with nothing pairs with nothing after the scrub: what follows it directly is
      still the same quote, or that quote does not occur later. */
  lemma StaysPlain(hash: Hash, s: string)
    requires s != [] && !(IsQuote(s[0]) && 1 < FirstClose(s) < |s|)
    ensures var rest := Scrub(hash, s[1..]);
            IsQuote(s[0]) ==> s[0] !in rest || (rest != [] && rest[0] == s[0])
  {
    if IsQuote(s[0]) {
      if s[0] in s[1..] {
        assert FirstClose(s) == 1;
        FirstKept(hash, s[1..]);
      } else {
        NoNewQuotes(hash, s[1..], s[0]);
      }
    }
  }

  lemma {:induction false} SpansQuoted(s: string)
    ensures forall i :: 0 <= i < |Pieces(s)| && Pieces(s)[i].Span? ==> IsQuote(Pieces(s)[i].quote)
    decreases |s|
  {
    if s != [] {
      var e := FirstClose(s);
      if IsQuote(s[0]) && 1 < e < |s| {
        SpansQuoted(s[e + 1..]);
      } else {
        SpansQuoted(s[1..]);
      }
    }
  }

  /** Every quoted span of the output is a placeholder, and scrubbing again changes nothing. */
  lemma ScrubIsProjection(hash: Hash, s: string)
    ensures forall i :: 0 <= i < |Pieces(Scrub(hash, s))| && Pieces(Scrub(hash, s))[i].Span? ==>
              IsPlaceholder(Pieces(Scrub(hash, s))[i].body)
    ensures Scrub(hash, Scrub(hash, s)) == Scrub(hash, s)
  {
    var once := Pieces(Scrub(hash, s));
    ScrubKeepsStructure(hash, s);
    SpansQuoted(s);
    forall i | 0 <= i < |once| && once[i].Span? ensures IsPlaceholder(once[i].body) {
      ScrubbedSpan(hash, Pieces(s)[i]);
    }
    assert ScrubPieces(hash, once) == once;
    ScrubIsPiecewise(hash, Scrub(hash, s));
    PiecesFlatten(Scrub(hash, s));
  }

  /** Nothing outside spans is touched, and each span, still where it was and in its quotes, stands for
      its own content: equal contents by equal placeholders. */
  ghost predicate SpansHidden(hash: Hash, s: string, scrubbed: string) {
    var before, after := Pieces(s), Pieces(scrubbed);
    && |after| == |before| && Flatten(after) == scrubbed
    && forall i :: 0 <= i < |before| ==>
         if before[i].Plain? then after[i] == before[i]
         else after[i].Span? && after[i].quote == before[i].quote && Hides(hash, before[i].body, after[i].body)
  }

  lemma ScrubHides(hash: Hash, s: string)
    ensures SpansHidden(hash, s, Scrub(hash, s))
  {
    ScrubKeepsStructure(hash, s);
    PiecesFlatten(Scrub(hash, s));
  }

  /** A text the scrub leaves alone is one with nothing left to hide. */
  lemma ScrubFixesExactly(hash: Hash, s: string)
    ensures Scrub(hash, s) == s <==>
            forall i :: 0 <= i < |Pieces(s)| && Pieces(s)[i].Span? ==> ScrubPiece(hash, Pieces(s)[i]) == Pieces(s)[i]
  {
    ScrubIsPiecewise(hash, s);
    PiecesFlatten(s);
    ScrubKeepsStructure(hash, s);
    if forall i :: 0 <= i < |Pieces(s)| && Pieces(s)[i].Span? ==> ScrubPiece(hash, Pieces(s)[i]) == Pieces(s)[i] {
      assert ScrubPieces(hash, Pieces(s)) == Pieces(s);
    }
  }

  // ---- a whole record --------------------------------------------------------------------

  datatype Divergence = Divergence(
    detail: string, argsLiteral: string, kwargsLiteral: string, minimizedArgs: string, minimizedKwargs: string,
    shrinkPath: seq<string>, baseSummary: string, headSummary: string, narrative: Option<string>,
    verdictClass: string, severity: string)

  /** The redaction pass in front of the scrub, not modelled further. */
  type Redact = string -> string

  function ScrubSummary(redact: Redact, hash: Hash, s: string): string {
    Scrub(hash, redact(s))
  }

  function StripDivergence(redact: Redact, hash: Hash, d: Divergence): Divergence {
    d.(detail := ScrubSummary(redact, hash, d.detail),
       argsLiteral := StrippedLiteral(hash, d.argsLiteral),
       kwargsLiteral := StrippedLiteral(hash, d.kwargsLiteral),
       minimizedArgs := StrippedLiteral(hash, d.minimizedArgs),
       minimizedKwargs := StrippedLiteral(hash, d.minimizedKwargs),
       shrinkPath := seq(|d.shrinkPath|, i requires 0 <= i < |d.shrinkPath| => StrippedLiteral(hash, d.shrinkPath[i])),
       baseSummary := ScrubSummary(redact, hash, d.baseSummary),
       headSummary := ScrubSummary(redact, hash, d.headSummary),
       narrative := None)
  }

  /** The redaction has nothing to do in a text that was already scrubbed. */
  predicate Settled(redact: Redact, hash: Hash, s: string) {
    redact(ScrubSummary(redact, hash, s)) == ScrubSummary(redact, hash, s)
  }

  /** Stripping a record twice is stripping it once, given a redaction that leaves scrubbed texts
      alone; every mined literal leaves as a placeholder, verdict and severity as they were. */
  lemma StripsOnce(redact: Redact, hash: Hash, d: Divergence)
    requires Settled(redact, hash, d.detail) && Settled(redact, hash, d.baseSummary)
              && Settled(redact, hash, d.headSummary)
    ensures var once := StripDivergence(redact, hash, d);
            && StripDivergence(redact, hash, once) == once
            && once.verdictClass == d.verdictClass && once.severity == d.severity
            && IsPlaceholder(once.argsLiteral) && IsPlaceholder(once.kwargsLiteral)
            && IsPlaceholder(once.minimizedArgs) && IsPlaceholder(once.minimizedKwargs)
            && |once.shrinkPath| == |d.shrinkPath|
            && forall i :: 0 <= i < |once.shrinkPath| ==> IsPlaceholder(once.shrinkPath[i])
    ensures var once := StripDivergence(redact, hash, d);
            && Hides(hash, d.argsLiteral, once.argsLiteral) && Hides(hash, d.kwargsLiteral, once.kwargsLiteral)
            && Hides(hash, d.minimizedArgs, once.minimizedArgs) && Hides(hash, d.minimizedKwargs, once.minimizedKwargs)
            && (forall i :: 0 <= i < |d.shrinkPath| ==> Hides(hash, d.shrinkPath[i], once.shrinkPath[i]))
            && SpansHidden(hash, redact(d.detail), once.detail)
            && SpansHidden(hash, redact(d.baseSummary), once.baseSummary)
            && SpansHidden(hash, redact(d.headSummary), once.headSummary) && once.narrative == None
  {
    var once := StripDivergence(redact, hash, d);
    ScrubHides(hash, redact(d.detail));
    ScrubHides(hash, redact(d.baseSummary));
    ScrubHides(hash, redact(d.headSummary));
    ScrubIsProjection(hash, redact(d.detail));
    ScrubIsProjection(hash, redact(d.baseSummary));
    ScrubIsProjection(hash, redact(d.headSummary));
    LiteralsStripOnce(hash, d.argsLiteral);
    LiteralsStripOnce(hash, d.kwargsLiteral);
    LiteralsStripOnce(hash, d.minimizedArgs);
    LiteralsStripOnce(hash, d.minimizedKwargs);
    forall i | 0 <= i < |d.shrinkPath|
      ensures IsPlaceholder(once.shrinkPath[i]) && StrippedLiteral(hash, once.shrinkPath[i]) == once.shrinkPath[i]
    {
      LiteralsStripOnce(hash, d.shrinkPath[i]);
    }
    assert StripDivergence(redact, hash, once).shrinkPath == once.shrinkPath;
  }
}
