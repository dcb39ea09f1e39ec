/**
 Text as JavaScript sees it: a sequence of UTF-16 code units. Digests, keys and canonical JSON are such texts.
 */
module Texts {

  type Unit = u: int | 0 <= u < 0x1_0000

  type Text = seq<Unit>

  /** A literal of the source written in ASCII. */
  function Ascii(s: string): Text {
    seq(|s|, i requires 0 <= i < |s| => if s[i] as int < 0x1_0000 then s[i] as int else 0xFFFD)
  }

  /** The order in which `Array.prototype.sort` puts strings: code unit by code unit, a prefix first. */
  predicate Before(a: Text, b: Text) {
    if b == [] then false
    else if a == [] then true
    else if a[0] != b[0] then a[0] < b[0]
    else Before(a[1..], b[1..])
  }

  lemma {:induction false} BeforeIsTotal(a: Text, b: Text)
    ensures a == b || Before(a, b) || Before(b, a)
    ensures !(Before(a, b) && Before(b, a))
    ensures !Before(a, a)
  {
    if a != [] {
      BeforeIsTotal(a[1..], if b == [] then a[1..] else b[1..]);
      if b != [] && a[0] == b[0] && a[1..] == b[1..] {
        assert a == [a[0]] + a[1..] && b == [b[0]] + b[1..];
      }
    }
  }

  lemma {:induction false} BeforeIsTransitive(a: Text, b: Text, c: Text)
    requires Before(a, b) && Before(b, c)
    ensures Before(a, c)
  {
    if a != [] && a[0] == b[0] && b[0] == c[0] {
      BeforeIsTransitive(a[1..], b[1..], c[1..]);
    }
  }

  lemma Assoc<T>(a: seq<T>, b: seq<T>, c: seq<T>)
    ensures (a + b) + c == a + (b + c)
  {
  }

  lemma DropPrefix<T>(a: seq<T>, b: seq<T>)
    ensures (a + b)[|a|..] == b
    ensures a + b != [] && a != [] ==> (a + b)[0] == a[0]
  {
  }

  /** The punctuation and letters canonical JSON is built from. */
  const QUOTE: Unit := 34
  const PLUS: Unit := 43
  const COMMA: Unit := 44
  const MINUS: Unit := 45
  const DOT: Unit := 46
  const ZERO: Unit := 48
  const COLON: Unit := 58
  const OPEN_BRACKET: Unit := 91
  const BACKSLASH: Unit := 92
  const CLOSE_BRACKET: Unit := 93
  const LETTER_A: Unit := 97
  const LETTER_B: Unit := 98
  const LETTER_E: Unit := 101
  const LETTER_F: Unit := 102
  const LETTER_L: Unit := 108
  const LETTER_N: Unit := 110
  const LETTER_R: Unit := 114
  const LETTER_S: Unit := 115
  const LETTER_T: Unit := 116
  const LETTER_U: Unit := 117
  const OPEN_BRACE: Unit := 123
  const CLOSE_BRACE: Unit := 125
}
