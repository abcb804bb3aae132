/** The mail body of `services/email_service.go`: base64 wrapped at 76 characters. */
module MailBody {
  import opened Wrappers
  import Base64

  const CRLF := "\r\n"

  /** What the wrapper computes: pieces of `lineLen` characters, each closed by CRLF. */
  function Wrapped(s: string, lineLen: nat): string
    requires lineLen > 0
  {
    if s == "" then ""
    else if |s| <= lineLen then s + CRLF
    else s[..lineLen] + CRLF + Wrapped(s[lineLen..], lineLen)
  }

  /** The source's loop; with a line length of zero it would never end. */
  method WrapBase64(s: string, lineLen: nat) returns (result: string)
    requires lineLen > 0
    ensures result == Wrapped(s, lineLen)
  {
    result := "";
    var i := 0;
    assert s[0..] == s;
    while i < |s|
      invariant 0 <= i
      invariant result + (if i <= |s| then Wrapped(s[i..], lineLen) else "") == Wrapped(s, lineLen)
    {
      var end := i + lineLen;
      if end > |s| {
        end := |s|;
      }
      WrappedFrom(s, i, lineLen, result);
      result := result + s[i..end];
      result := result + CRLF;
      i := i + lineLen;
    }
  }

  lemma WrappedFrom(s: string, i: nat, lineLen: nat, result: string)
    requires lineLen > 0 && i < |s|
    ensures
      var end := if i + lineLen > |s| then |s| else i + lineLen;
      result + Wrapped(s[i..], lineLen)
      == result + s[i..end] + CRLF + (if i + lineLen <= |s| then Wrapped(s[i + lineLen..], lineLen) else "")
  {
    if i + lineLen < |s| {
      assert s[i..][..lineLen] == s[i..i + lineLen] && s[i..][lineLen..] == s[i + lineLen..];
    }
  }

  // How a mail reader sees the text.

  predicate IsBreak(c: char) {
    c == '\r' || c == '\n'
  }

  /** The text without its line breaks. */
  function Unwrapped(text: string): string {
    if text == "" then ""
    else if IsBreak(text[0]) then Unwrapped(text[1..])
    else [text[0]] + Unwrapped(text[1..])
  }

  /** The lines of a text, as section 2.3 of RFC 5322 delimits them. */
  function Lines(text: string): (r: seq<string>)
    ensures |r| >= 1
  {
    if text == "" then [""]
    else if CRLF <= text then [""] + Lines(text[2..])
    else
      var rest := Lines(text[1..]);
      [[text[0]] + rest[0]] + rest[1..]
  }

  predicate Unbroken(s: string) {
    forall c :: c in s ==> !IsBreak(c)
  }

  lemma {:induction false} UnwrappedPiece(piece: string, rest: string)
    requires Unbroken(piece)
    ensures Unwrapped(piece + rest) == piece + Unwrapped(rest)
  {
    if piece == "" {
      assert piece + rest == rest;
    } else {
      UnwrappedPiece(piece[1..], rest);
      assert (piece + rest)[1..] == piece[1..] + rest;
    }
  }

  lemma UnwrappedBreak(rest: string)
    ensures Unwrapped(CRLF + rest) == Unwrapped(rest)
  {
    assert (CRLF + rest)[1..] == "\n" + rest;
    assert ("\n" + rest)[1..] == rest;
  }

  lemma UnwrappedLine(piece: string, rest: string)
    requires Unbroken(piece)
    ensures Unwrapped(piece + CRLF + rest) == piece + Unwrapped(rest)
  {
    UnwrappedPiece(piece, CRLF + rest);
    UnwrappedBreak(rest);
    assert piece + CRLF + rest == piece + (CRLF + rest);
  }

  lemma {:induction false} LinesPiece(piece: string, rest: string)
    requires Unbroken(piece)
    ensures Lines(piece + CRLF + rest) == [piece] + Lines(rest)
  {
    var text := piece + CRLF + rest;
    if piece == "" {
      assert text == CRLF + rest;
      assert text[2..] == rest;
    } else {
      LinesPiece(piece[1..], rest);
      assert text[1..] == piece[1..] + CRLF + rest;
      assert text[0] == piece[0] && piece[0] in piece;
      assert piece == [piece[0]] + piece[1..];
    }
  }

  /** Wrapping loses nothing: taking the breaks out gives the text back, at every line length. */
  lemma {:induction false} UnwrappedOfWrapped(s: string, lineLen: nat)
    requires lineLen > 0 && Unbroken(s)
    ensures Unwrapped(Wrapped(s, lineLen)) == s
    decreases |s|
  {
    if s != "" {
      var piece, rest := FirstPiece(s, lineLen);
      UnwrappedOfWrapped(rest, lineLen);
      UnwrappedLine(piece, Wrapped(rest, lineLen));
    }
  }

  lemma FirstPiece(s: string, lineLen: nat) returns (piece: string, rest: string)
    requires lineLen > 0 && s != "" && Unbroken(s)
    ensures s == piece + rest && Unbroken(piece) && Unbroken(rest)
    ensures 1 <= |piece| <= lineLen && (rest != "" ==> |piece| == lineLen)
    ensures Wrapped(s, lineLen) == piece + CRLF + Wrapped(rest, lineLen)
  {
    if |s| <= lineLen {
      piece, rest := s, "";
    } else {
      piece, rest := s[..lineLen], s[lineLen..];
    }
  }

  /** No line is longer than asked, all but the last are full, and nothing follows the final CRLF. */
  lemma {:induction false} LinesOfWrapped(s: string, lineLen: nat)
    requires lineLen > 0 && Unbroken(s)
    ensures
      var lines := Lines(Wrapped(s, lineLen));
      && lines[|lines| - 1] == ""
      && (forall i :: 0 <= i < |lines| ==> |lines[i]| <= lineLen)
      && (forall i :: 0 <= i < |lines| - 2 ==> |lines[i]| == lineLen)
    decreases |s|
  {
    if s != "" {
      var piece, rest := FirstPiece(s, lineLen);
      LinesOfWrapped(rest, lineLen);
      LinesPiece(piece, Wrapped(rest, lineLen));
    }
  }

  lemma EncodedIsUnbroken(data: seq<bv8>)
    ensures Unbroken(Base64.Encode(Base64.TABLE, data))
  {
    Base64.TableIsStandard();
    Base64.EncodeShape(Base64.TABLE, data);
    var e := Base64.Encode(Base64.TABLE, data);
    forall c | c in e ensures !IsBreak(c) {
      var i :| 0 <= i < |e| && e[i] == c;
      assert e[i] in Base64.TABLE || e[i] == '=';
    }
  }

  /** The body as the source sends it can be read back, and keeps the limit of section 6.8 of RFC 2045. */
  lemma BodyRoundTrip(data: seq<bv8>)
    ensures
      var body := Wrapped(Base64.Encode(Base64.TABLE, data), 76);
      && Base64.Decode(Base64.TABLE, Unwrapped(body)) == Some(data)
      && (forall i :: 0 <= i < |Lines(body)| ==> |Lines(body)[i]| <= 76)
  {
    var e := Base64.Encode(Base64.TABLE, data);
    EncodedIsUnbroken(data);
    UnwrappedOfWrapped(e, 76);
    LinesOfWrapped(e, 76);
    Base64.TableIsStandard();
    Base64.DecodeOfEncode(Base64.TABLE, data);
  }
}
