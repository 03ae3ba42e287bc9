/**
 Quoting of DNS character strings (render/render.go), and the escape rules of section 5.1 of RFC 1035
 that a reader of the result applies.
 */
module Quote {
  import opened Names

  type Byte = b: int | 0 <= b < 256

  const QUOTE: Byte := 34
  const BACKSLASH: Byte := 92
  const SPACE: Byte := 32
  const ZERO: Byte := 48

  predicate Printable(b: Byte) {
    32 <= b <= 126
  }

  predicate IsDigit(b: Byte) {
    ZERO <= b <= ZERO + 9
  }

  // ---------- writing ----------

  function Escape(c: Byte): seq<Byte> {
    if c == QUOTE || c == BACKSLASH then [BACKSLASH, c]
    else if !Printable(c) then [BACKSLASH, ZERO + c / 100, ZERO + c / 10 % 10, ZERO + c % 10]
    else [c]
  }

  function Each(value: seq<Byte>, write: Byte -> seq<Byte>): seq<Byte> {
    if value == [] then [] else Each(value[..|value| - 1], write) + write(value[|value| - 1])
  }

  function EscapeAll(value: seq<Byte>): seq<Byte> {
    Each(value, Escape)
  }

  function Quoted(value: seq<Byte>): seq<Byte> {
    [QUOTE] + EscapeAll(value) + [QUOTE]
  }

  method QuoteString(value: seq<Byte>) returns (text: seq<Byte>)
    ensures text == Quoted(value)
  {
    text := [QUOTE];
    var i := 0;
    while i < |value|
      invariant 0 <= i <= |value|
      invariant text == [QUOTE] + EscapeAll(value[..i])
    {
      assert value[..i + 1][..i] == value[..i];
      var c := value[i];
      if c == QUOTE || c == BACKSLASH {
        text := text + [BACKSLASH];
        text := text + [c];
      } else if c < 32 || c > 126 {
        text := text + [BACKSLASH];
        text := text + [ZERO + c / 100];
        text := text + [ZERO + c / 10 % 10];
        text := text + [ZERO + c % 10];
      } else {
        text := text + [c];
      }
      assert text == [QUOTE] + (EscapeAll(value[..i]) + Escape(c));
      i := i + 1;
    }
    assert value[..i] == value;
    text := text + [QUOTE];
  }

  const MAX_PIECE := 255

  /** The value cut into character strings of at most 255 octets; a short value, even an empty one, is one string. */
  function Pieces(value: seq<Byte>): (pieces: seq<seq<Byte>>)
    ensures pieces != []
  {
    if |value| <= MAX_PIECE then [value] else [value[..MAX_PIECE]] + Pieces(value[MAX_PIECE..])
  }

  function Joined(pieces: seq<seq<Byte>>): seq<Byte>
    requires pieces != []
  {
    if |pieces| == 1 then Quoted(pieces[0]) else Quoted(pieces[0]) + [SPACE] + Joined(pieces[1..])
  }

  function QuotedTXT(value: seq<Byte>): seq<Byte> {
    Joined(Pieces(value))
  }

  method QuoteTXT(value: seq<Byte>) returns (text: seq<Byte>)
    ensures text == QuotedTXT(value)
  {
    if |value| <= MAX_PIECE {
      text := QuoteString(value);
      return;
    }
    text := [];
    var rest := value;
    while |rest| > 0
      invariant rest != [] ==> QuotedTXT(value) == text + (if text == [] then [] else [SPACE]) + QuotedTXT(rest)
      invariant rest == [] ==> QuotedTXT(value) == text
      invariant text == [] ==> rest != []
      decreases |rest|
    {
      var n := if |rest| < MAX_PIECE then |rest| else MAX_PIECE;
      OnePiece(rest, n);
      if |text| > 0 {
        text := text + [SPACE];
      }
      var piece := QuoteString(rest[..n]);
      text := text + piece;
      rest := rest[n..];
    }
  }

  lemma OnePiece(rest: seq<Byte>, n: nat)
    requires rest != [] && n == if |rest| < MAX_PIECE then |rest| else MAX_PIECE
    ensures QuotedTXT(rest)
            == if rest[n..] == [] then Quoted(rest[..n]) else Quoted(rest[..n]) + [SPACE] + QuotedTXT(rest[n..])
  {
    if |rest| <= MAX_PIECE {
      assert rest[..n] == rest;
    } else {
      assert Pieces(rest)[1..] == Pieces(rest[MAX_PIECE..]);
    }
  }

  // ---------- reading ----------

  /** One escape, one character, or nothing: the octet read and the text behind it. */
  function ReadOne(text: seq<Byte>): Option<(Byte, seq<Byte>)> {
    if text == [] || text[0] == QUOTE then None
    else if text[0] != BACKSLASH then Some((text[0], text[1..]))
    else if |text| < 2 then None
    else if !IsDigit(text[1]) then Some((text[1], text[2..]))
    else if |text| < 4 || !IsDigit(text[2]) || !IsDigit(text[3]) then None
    else
      var code := (text[1] - ZERO) * 100 + (text[2] - ZERO) * 10 + (text[3] - ZERO);
      if code > 255 then None else Some((code, text[4..]))
  }

  /** The octets up to the closing quote, and the text behind it. */
  function ReadBody(text: seq<Byte>): Option<(seq<Byte>, seq<Byte>)>
    decreases |text|
  {
    if text != [] && text[0] == QUOTE then Some(([], text[1..]))
    else
      match ReadOne(text)
      case None => None
      case Some((c, rest)) =>
        if |rest| >= |text| then None
        else
          match ReadBody(rest)
          case None => None
          case Some((body, behind)) => Some(([c] + body, behind))
  }

  /** Quoted strings separated by single spaces. */
  function ReadStrings(text: seq<Byte>): Option<seq<seq<Byte>>>
    decreases |text|
  {
    if text == [] || text[0] != QUOTE then None
    else
      match ReadBody(text[1..])
      case None => None
      case Some((body, behind)) =>
        if behind == [] then Some([body])
        else if behind[0] != SPACE || |behind| > |text| then None
        else
          match ReadStrings(behind[1..])
          case None => None
          case Some(rest) => Some([body] + rest)
  }

  function Concat(pieces: seq<seq<Byte>>): seq<Byte> {
    if pieces == [] then [] else pieces[0] + Concat(pieces[1..])
  }

  // ---------- the round trip ----------

  lemma ReadEscape(c: Byte, rest: seq<Byte>)
    ensures ReadOne(Escape(c) + rest) == Some((c, rest))
  {
    var text := Escape(c) + rest;
    if c == QUOTE || c == BACKSLASH {
      assert text[2..] == rest;
    } else if !Printable(c) {
      assert text[4..] == rest;
      assert c / 100 * 100 + c / 10 % 10 * 10 + c % 10 == c;
    } else {
      assert text[1..] == rest;
    }
  }

  lemma {:induction false} EachHead(value: seq<Byte>, write: Byte -> seq<Byte>)
    requires value != []
    ensures Each(value, write) == write(value[0]) + Each(value[1..], write)
  {
    var last := |value| - 1;
    if last == 0 {
      assert value[1..] == [] && value[..0] == [];
    } else {
      EachHead(value[..last], write);
      var rest := value[1..];
      assert value[..last][1..] == rest[..last - 1];
      var first, middle, end := write(value[0]), Each(rest[..last - 1], write), write(value[last]);
      assert Each(value, write) == (first + middle) + end;
      assert Each(rest, write) == middle + end;
      assert (first + middle) + end == first + (middle + end);
    }
  }

  lemma {:induction false} ReadEscapes(value: seq<Byte>, rest: seq<Byte>)
    ensures ReadBody(EscapeAll(value) + [QUOTE] + rest) == Some((value, rest))
    decreases |value|
  {
    var text := EscapeAll(value) + [QUOTE] + rest;
    if value == [] {
      assert text == [QUOTE] + rest;
    } else {
      var behind := EscapeAll(value[1..]) + [QUOTE] + rest;
      EachHead(value, Escape);
      assert text == Escape(value[0]) + behind;
      ReadEscape(value[0], behind);
      ReadEscapes(value[1..], rest);
      assert value == [value[0]] + value[1..];
    }
  }

  lemma {:induction false} ReadJoined(pieces: seq<seq<Byte>>)
    requires pieces != []
    ensures ReadStrings(Joined(pieces)) == Some(pieces)
  {
    var text := Joined(pieces);
    if |pieces| == 1 {
      assert text[1..] == EscapeAll(pieces[0]) + [QUOTE] + [];
      ReadEscapes(pieces[0], []);
      assert pieces == [pieces[0]];
    } else {
      var behind := [SPACE] + Joined(pieces[1..]);
      assert text[1..] == EscapeAll(pieces[0]) + [QUOTE] + behind;
      ReadEscapes(pieces[0], behind);
      ReadJoined(pieces[1..]);
      assert behind[1..] == Joined(pieces[1..]);
      assert pieces == [pieces[0]] + pieces[1..];
    }
  }

  lemma {:induction false} PiecesAreCuts(value: seq<Byte>)
    ensures Concat(Pieces(value)) == value
    ensures forall p :: p in Pieces(value) ==> |p| <= MAX_PIECE
    decreases |value|
  {
    if |value| <= MAX_PIECE {
      assert Pieces(value)[1..] == [];
    } else {
      PiecesAreCuts(value[MAX_PIECE..]);
      assert Pieces(value)[1..] == Pieces(value[MAX_PIECE..]);
    }
  }

  ghost predicate AllPrintable(text: seq<Byte>) {
    forall i :: 0 <= i < |text| ==> Printable(text[i])
  }

  lemma {:induction false} EscapesArePrintable(value: seq<Byte>)
    ensures AllPrintable(EscapeAll(value))
  {
    if value != [] {
      EscapesArePrintable(value[..|value| - 1]);
      assert AllPrintable(Escape(value[|value| - 1]));
    }
  }

  lemma {:induction false} JoinedIsPrintable(pieces: seq<seq<Byte>>)
    requires pieces != []
    ensures AllPrintable(Joined(pieces))
  {
    EscapesArePrintable(pieces[0]);
    if |pieces| > 1 {
      JoinedIsPrintable(pieces[1..]);
    }
  }

  /**
   For every octet string: reading the quoted text by the escape rules gives pieces of at most 255 octets whose
   concatenation is the string, and the text is printable ASCII.
   */
  lemma QuotingRoundTrip(value: seq<Byte>)
    ensures ReadStrings(QuotedTXT(value)).Some?
    ensures Concat(ReadStrings(QuotedTXT(value)).value) == value
    ensures forall p :: p in ReadStrings(QuotedTXT(value)).value ==> |p| <= MAX_PIECE
    ensures AllPrintable(QuotedTXT(value))
  {
    ReadJoined(Pieces(value));
    PiecesAreCuts(value);
    JoinedIsPrintable(Pieces(value));
  }

  /** Two values never quote to the same text. */
  lemma QuotingIsInjective(left: seq<Byte>, right: seq<Byte>)
    requires QuotedTXT(left) == QuotedTXT(right)
    ensures left == right
  {
    QuotingRoundTrip(left);
    QuotingRoundTrip(right);
  }
}
