// Escaping text for the MarkdownV2 parse mode of the Telegram Bot API
// ("Formatting options"): each of its 18 reserved characters gets one
// backslash in front, every other character is kept.
module MarkdownV2 {
  import opened Text

  /** The reserved characters, in the order the escape loop visits them. */
  const EscapeChars: seq<char> :=
    ['_', '*', '[', ']', '(', ')', '~', '`', '>', '#', '+', '-', '=', '|', '{', '}', '.', '!']

  predicate IsReserved(c: char) {
    c in EscapeChars
  }

  /** A character escaped against the set `chars`. */
  function EscapeCharIn(c: char, chars: seq<char>): string {
    if c in chars then ['\\', c] else [c]
  }

  /** Every character of `s` found in `chars` escaped, in one pass. */
  function EscapeIn(s: string, chars: seq<char>): string {
    if s == [] then [] else EscapeCharIn(s[0], chars) + EscapeIn(s[1..], chars)
  }

  /** The one-pass MarkdownV2 escape. */
  function Escape(s: string): string {
    EscapeIn(s, EscapeChars)
  }

  /** `escape_markdown_v2`: one str.replace per reserved character, in order. */
  method EscapeMarkdownV2(text: string) returns (r: string)
    ensures r == Escape(text)
  {
    r := text;
    var k := 0;
    EscapeInNone(text);
    while k < |EscapeChars|
      invariant 0 <= k <= |EscapeChars|
      invariant r == EscapeIn(text, EscapeChars[..k])
    {
      var ch := EscapeChars[k];
      ReservedFresh(k);
      ReplaceExtendsEscape(text, EscapeChars[..k], ch);
      assert EscapeChars[..k + 1] == EscapeChars[..k] + [ch];
      r := ReplaceChar(r, ch, ['\\', ch]);
      k := k + 1;
    }
    assert EscapeChars[..k] == EscapeChars;
  }

  /** The reserved characters are distinct and none is a backslash. */
  lemma {:induction false} ReservedFresh(k: nat)
    requires k < |EscapeChars|
    ensures EscapeChars[k] !in EscapeChars[..k] && EscapeChars[k] != '\\'
  {
  }

  lemma {:induction false} EscapeInNone(s: string)
    ensures EscapeIn(s, []) == s
  {
    if s != [] {
      EscapeInNone(s[1..]);
      assert [s[0]] + s[1..] == s;
    }
  }

  lemma {:induction false} ReplaceCharConcat(a: string, b: string, c: char, rep: string)
    ensures ReplaceChar(a + b, c, rep) == ReplaceChar(a, c, rep) + ReplaceChar(b, c, rep)
  {
    if a == [] {
      assert a + b == b;
    } else {
      assert (a + b)[0] == a[0] && (a + b)[1..] == a[1..] + b;
      ReplaceCharConcat(a[1..], b, c, rep);
    }
  }

  /** The step the loop takes: replacing one more character `c` that is not a
      backslash and not yet escaped extends the escaped set by `c`. No earlier
      replacement is disturbed, because backslash is not reserved. */
  lemma {:induction false} ReplaceExtendsEscape(s: string, chars: seq<char>, c: char)
    requires c !in chars && c != '\\'
    ensures ReplaceChar(EscapeIn(s, chars), c, ['\\', c]) == EscapeIn(s, chars + [c])
  {
    if s != [] {
      var head := EscapeCharIn(s[0], chars);
      ReplaceCharConcat(head, EscapeIn(s[1..], chars), c, ['\\', c]);
      ReplaceExtendsEscape(s[1..], chars, c);
      if s[0] in chars {
        assert ReplaceChar(head, c, ['\\', c]) == head;
      } else {
        assert ReplaceChar(head, c, ['\\', c]) == EscapeCharIn(s[0], chars + [c]);
      }
    }
  }

  /** The number of reserved characters in `s`. */
  function CountReserved(s: string): nat {
    if s == [] then 0 else (if IsReserved(s[0]) then 1 else 0) + CountReserved(s[1..])
  }

  /** Escaping adds exactly one character per reserved character. */
  lemma {:induction false} EscapeLength(s: string)
    ensures |Escape(s)| == |s| + CountReserved(s)
  {
    if s != [] {
      EscapeLength(s[1..]);
    }
  }

  /** Escaping distributes over concatenation. */
  lemma {:induction false} EscapeConcat(a: string, b: string)
    ensures Escape(a + b) == Escape(a) + Escape(b)
  {
    if a == [] {
      assert a + b == b;
    } else {
      assert (a + b)[0] == a[0] && (a + b)[1..] == a[1..] + b;
      EscapeConcat(a[1..], b);
    }
  }

  /** Reading MarkdownV2 back: a backslash before a reserved character is dropped. */
  function Unescape(t: string): string
    decreases |t|
  {
    if t == [] then []
    else if |t| >= 2 && t[0] == '\\' && IsReserved(t[1]) then [t[1]] + Unescape(t[2..])
    else [t[0]] + Unescape(t[1..])
  }

  /** Escaped text never starts with a bare reserved character. */
  lemma {:induction false} EscapeHead(s: string)
    requires s != []
    ensures Escape(s) != [] && !IsReserved(Escape(s)[0])
  {
    assert Escape(s)[0] == EscapeCharIn(s[0], EscapeChars)[0];
  }

  /** Reading the escaped text back gives the original text. */
  lemma {:induction false} UnescapeEscape(s: string)
    ensures Unescape(Escape(s)) == s
  {
    if s != [] {
      UnescapeEscape(s[1..]);
      var t := Escape(s);
      var rest := Escape(s[1..]);
      if IsReserved(s[0]) {
        assert t == ['\\', s[0]] + rest;
        assert t[2..] == rest;
      } else {
        assert t == [s[0]] + rest;
        assert t[1..] == rest;
        if s[0] == '\\' && |t| >= 2 {
          EscapeHead(s[1..]);
          assert t[1] == rest[0];
        }
      }
      assert [s[0]] + s[1..] == s;
    }
  }
}
