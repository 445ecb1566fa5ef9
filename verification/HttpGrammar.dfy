/** The characters of a request as its standards name them, against the tables of the parser. */
module HttpGrammar {
  import opened HttpModel

  predicate Letter(ch: char) { 'a' <= ch <= 'z' || 'A' <= ch <= 'Z' }

  predicate Decimal(ch: char) { ch in "0123456789" }

  /** Upper case counts as lower case; everything else is itself. */
  function Fold(ch: char): char { if 'A' <= ch <= 'Z' then (ch as int + 32) as char else ch }

  // ---- header names ----

  const SEPARATORS := "()<>@,;:\\\"/[]?={} \t"

  /** RFC 2616, section 2.2: any character but the control characters and the separators. */
  predicate TokenChar(ch: char) { 32 <= ch as int < 127 && ch !in SEPARATORS }

  /** The separators that pass for characters of a name nevertheless. */
  const PASSING := " \"/}"

  predicate NameChar(ch: char) { TokenChar(ch) || ch in PASSING }

  /** The table knows the characters of a name, lower-cased, and no others. */
  lemma TokenTable(ch: char)
    ensures if NameChar(ch) then Token(ch) == Fold(ch) != NUL else Token(ch) == NUL
  {
  }

  /** The characters of the words that the parser knows, in names and in values. */
  lemma FoldTable(ch: char, w: char)
    requires 'a' <= w <= 'z' || w == '-'
    ensures Token(ch) == w <==> Fold(ch) == w
    ensures Lower(ch) == w <==> Fold(ch) == w || (ch == CR && w == '-')
  {
  }

  lemma LetterTable(ch: char)
    ensures (IsLetter(ch) <==> Letter(ch)) && (IsDigit(ch) <==> Decimal(ch))
  {
  }

  // ---- URLs ----

  const UNRESERVED := "-._~"
  const SUB_DELIMS := "!$&'()*+,;="

  /** RFC 3986, section 3.3: the characters of a path. */
  predicate PathChar(ch: char) {
    Letter(ch) || Decimal(ch) || ch in UNRESERVED || ch in SUB_DELIMS || ch in "%:@/"
  }

  /** The other visible characters, which the parser lets pass; all but those that end a path or a query. */
  const VISIBLE := "\"<>[\\]^`{|}"

  predicate UrlChar(ch: char) { PathChar(ch) || ch in VISIBLE }

  lemma UrlTable(ch: char)
    ensures NormalUrlChar(ch) <==> UrlChar(ch)
  {
  }

  // ---- chunk sizes ----

  /** RFC 2616, section 3.6.1: hexadecimal digits; bytes from 128 on pass for the digit 0. */
  predicate SizeChar(ch: char) { Decimal(ch) || 'a' <= Fold(ch) <= 'f' || ch as int >= 128 }

  function SizeValue(ch: char): (v: nat)
    requires SizeChar(ch)
    ensures v < 16
  {
    LetterTable(ch);
    if Decimal(ch) then ch as int - '0' as int else if ch as int >= 128 then 0 else Fold(ch) as int - 'a' as int + 10
  }

  lemma SizeTable(ch: char)
    ensures if SizeChar(ch) then Unhex(ch) == SizeValue(ch) else Unhex(ch) == -1
  {
    LetterTable(ch);
    hide Decimal;
  }
}
