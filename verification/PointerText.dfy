// JSON Pointer text, RFC 6901 sections 3 and 4: splitting a pointer into unescaped
// tokens, and printing tokens back. A field's original value is recorded under the
// printed pointer, so restoring depends on these two being inverse.
module PointerText {
  import opened Wrappers

  type Tokens = seq<string>

  // ---- strings ------------------------------------------------------------------

  /** strings.ReplaceAll for a two-character pattern: leftmost matches, no rescanning. */
  function ReplacePair(s: string, first: char, second: char, with: char): (r: string)
  {
    if s == [] then []
    else if |s| >= 2 && s[0] == first && s[1] == second then [with] + ReplacePair(s[2..], first, second, with)
    else [s[0]] + ReplacePair(s[1..], first, second, with)
  }

  /** strings.ReplaceAll of one character by two. */
  function ReplaceChar(s: string, target: char, with: string): (r: string)
  {
    if s == [] then []
    else (if s[0] == target then with else [s[0]]) + ReplaceChar(s[1..], target, with)
  }

  /** strings.Split(s, "/"): always at least one part. */
  function Split(s: string): (parts: seq<string>)
    ensures parts != []
  {
    if s == [] then [[]]
    else
      var rest := Split(s[1..]);
      if s[0] == '/' then [[]] + rest
      else [[s[0]] + rest[0]] + rest[1..]
  }

  // ---- parsing and printing -------------------------------------------------------

  /** The decoding of one segment: "~1" first, then "~0". */
  function Decode(part: string): (token: string) {
    ReplacePair(ReplacePair(part, '~', '1', '/'), '~', '0', '~')
  }

  /** The encoding of one token: "~" first, then "/". */
  function Encode(token: string): (part: string) {
    ReplaceChar(ReplaceChar(token, '~', "~0"), '/', "~1")
  }

  function DecodeAll(parts: seq<string>): (tokens: Tokens)
    ensures |tokens| == |parts|
  {
    seq(|parts|, i requires 0 <= i < |parts| => Decode(parts[i]))
  }

  /** jsonpointer.Parse. None is an error: an empty pointer, one that does not start
      with "/", or one with an empty segment. */
  function Parse(pointer: string): (r: Option<Tokens>)
  {
    if pointer == [] || pointer[0] != '/' then None
    else
      var parts := Split(pointer[1..]);
      if exists i :: 0 <= i < |parts| && parts[i] == [] then None
      else Some(DecodeAll(parts))
  }

  /** jsonpointer.Format. */
  function Format(tokens: Tokens): (pointer: string)
  {
    if tokens == [] then [] else "/" + Encode(tokens[0]) + Format(tokens[1..])
  }

  // ---- one-pass readings of the two codecs -------------------------------------------

  /** Section 4 of RFC 6901 read in one pass over the segment. */
  function DecodeOnce(s: string): (r: string)
  {
    if s == [] then []
    else if |s| >= 2 && s[0] == '~' && s[1] == '1' then "/" + DecodeOnce(s[2..])
    else if |s| >= 2 && s[0] == '~' && s[1] == '0' then "~" + DecodeOnce(s[2..])
    else [s[0]] + DecodeOnce(s[1..])
  }

  function EncodeOnce(s: string): (r: string)
  {
    if s == [] then []
    else (if s[0] == '~' then "~0" else if s[0] == '/' then "~1" else [s[0]]) + EncodeOnce(s[1..])
  }

  /** Every "~" in the segment starts "~0" or "~1". */
  predicate WellEscaped(s: string)
  {
    forall i :: 0 <= i < |s| && s[i] == '~' ==> i + 1 < |s| && (s[i + 1] == '0' || s[i + 1] == '1')
  }

  /** Substituting "~1" and then "~0" over the whole string is the one-pass decoding. */
  lemma {:induction false} TwoPassDecode(s: string)
    ensures Decode(s) == DecodeOnce(s)
  {
    if s == [] {
    } else if |s| >= 2 && s[0] == '~' && s[1] == '1' {
      TwoPassDecode(s[2..]);
      PairMiss('/', ReplacePair(s[2..], '~', '1', '/'));
    } else if |s| >= 2 && s[0] == '~' && s[1] == '0' {
      TwoPassDecode(s[2..]);
      var inner := ReplacePair(s[2..], '~', '1', '/');
      assert s[1..][1..] == s[2..];
      assert ReplacePair(s[1..], '~', '1', '/') == ['0'] + inner;
      assert ReplacePair(s, '~', '1', '/') == ['~', '0'] + inner;
      assert (['~', '0'] + inner)[2..] == inner;
    } else {
      TwoPassDecode(s[1..]);
      var inner := ReplacePair(s[1..], '~', '1', '/');
      assert ReplacePair(s, '~', '1', '/') == [s[0]] + inner;
      assert s[0] == '~' && |inner| > 0 ==> inner[0] != '0';
      PairMiss(s[0], inner);
    }
  }

  /** A first character that does not start the pair "~0" is kept. */
  lemma PairMiss(c: char, rest: string)
    requires !(c == '~' && |rest| > 0 && rest[0] == '0')
    ensures ReplacePair([c] + rest, '~', '0', '~') == [c] + ReplacePair(rest, '~', '0', '~')
  {
    assert ([c] + rest)[1..] == rest;
  }

  lemma {:induction false} TwoPassEncode(s: string)
    ensures Encode(s) == EncodeOnce(s)
  {
    if s != [] {
      TwoPassEncode(s[1..]);
      var head := if s[0] == '~' then "~0" else [s[0]];
      ReplaceCharAppend(head, ReplaceChar(s[1..], '~', "~0"), '/', "~1");
      assert ReplaceChar(head, '/', "~1") == (if s[0] == '~' then "~0" else if s[0] == '/' then "~1" else [s[0]]) by {
        if s[0] == '~' {
          assert head[1..] == "0";
          assert ReplaceChar("0", '/', "~1") == "0";
        }
      }
    }
  }

  lemma Associative(x: string, y: string, z: string)
    ensures x + (y + z) == x + y + z
  {
  }

  lemma {:induction false} ReplaceCharAppend(a: string, b: string, target: char, with: string)
    ensures ReplaceChar(a + b, target, with) == ReplaceChar(a, target, with) + ReplaceChar(b, target, with)
  {
    if a == [] {
      assert a + b == b;
    } else {
      ReplaceCharAppend(a[1..], b, target, with);
      assert (a + b)[1..] == a[1..] + b && (a + b)[0] == a[0];
      Associative(if a[0] == target then with else [a[0]], ReplaceChar(a[1..], target, with), ReplaceChar(b, target, with));
    }
  }

  // ---- one segment -------------------------------------------------------------------

  lemma {:induction false} DecodeEncodeOnce(s: string)
    ensures DecodeOnce(EncodeOnce(s)) == s
  {
    if s != [] {
      DecodeEncodeOnce(s[1..]);
      var rest := EncodeOnce(s[1..]);
      if s[0] == '~' {
        assert EncodeOnce(s) == "~0" + rest && ("~0" + rest)[2..] == rest;
      } else if s[0] == '/' {
        assert EncodeOnce(s) == "~1" + rest && ("~1" + rest)[2..] == rest;
      } else {
        assert EncodeOnce(s) == [s[0]] + rest && ([s[0]] + rest)[1..] == rest;
      }
    }
  }

  lemma {:induction false} EncodeOnceShape(s: string)
    ensures WellEscaped(EncodeOnce(s))
    ensures '/' !in EncodeOnce(s)
    ensures s != [] ==> EncodeOnce(s) != []
  {
    if s != [] {
      EncodeOnceShape(s[1..]);
      var head := if s[0] == '~' then "~0" else if s[0] == '/' then "~1" else [s[0]];
      var rest := EncodeOnce(s[1..]);
      assert EncodeOnce(s) == head + rest;
      forall i | 0 <= i < |head + rest| && (head + rest)[i] == '~'
        ensures i + 1 < |head + rest| && ((head + rest)[i + 1] == '0' || (head + rest)[i + 1] == '1')
      {
        if i >= |head| {
          assert rest[i - |head|] == '~';
        }
      }
    }
  }

  /** On a segment, re-encoding what was decoded gives the segment back exactly when
      every "~" in it is an escape. */
  lemma {:induction false} EncodeDecodeOnce(s: string)
    requires '/' !in s
    ensures EncodeOnce(DecodeOnce(s)) == s <==> WellEscaped(s)
  {
    if s == [] {
    } else if |s| >= 2 && s[0] == '~' && (s[1] == '0' || s[1] == '1') {
      var rest := s[2..];
      EncodeDecodeOnce(rest);
      var head := if s[1] == '1' then "/" else "~";
      assert DecodeOnce(s) == head + DecodeOnce(rest);
      assert (head + DecodeOnce(rest))[1..] == DecodeOnce(rest);
      assert EncodeOnce(DecodeOnce(s)) == ['~', s[1]] + EncodeOnce(DecodeOnce(rest));
      assert s == ['~', s[1]] + rest;
      WellEscapedTail(s, 2);
    } else {
      var rest := s[1..];
      EncodeDecodeOnce(rest);
      assert DecodeOnce(s) == [s[0]] + DecodeOnce(rest);
      assert ([s[0]] + DecodeOnce(rest))[1..] == DecodeOnce(rest);
      if s[0] == '~' {
        assert EncodeOnce(DecodeOnce(s)) == "~0" + EncodeOnce(DecodeOnce(rest));
        assert EncodeOnce(DecodeOnce(s))[1] == '0';
        assert !WellEscaped(s);
      } else {
        assert EncodeOnce(DecodeOnce(s)) == [s[0]] + EncodeOnce(DecodeOnce(rest));
        assert s == [s[0]] + rest;
        WellEscapedTail(s, 1);
      }
    }
  }

  lemma WellEscapedTail(s: string, n: nat)
    requires n <= |s|
    requires forall i :: 0 <= i < n && s[i] == '~' ==> i + 1 < |s| && (s[i + 1] == '0' || s[i + 1] == '1')
    ensures WellEscaped(s) <==> WellEscaped(s[n..])
  {
    if WellEscaped(s[n..]) {
      forall i | 0 <= i < |s| && s[i] == '~'
        ensures i + 1 < |s| && (s[i + 1] == '0' || s[i + 1] == '1')
      {
        if i >= n {
          assert s[n..][i - n] == '~';
        }
      }
    }
    if WellEscaped(s) {
      forall i | 0 <= i < |s[n..]| && s[n..][i] == '~'
        ensures i + 1 < |s[n..]| && (s[n..][i + 1] == '0' || s[n..][i + 1] == '1')
      {
        assert s[i + n] == '~';
      }
    }
  }

  // ---- whole pointers ------------------------------------------------------------------

  predicate NonEmptyTokens(tokens: Tokens) {
    forall i :: 0 <= i < |tokens| ==> tokens[i] != []
  }

  predicate SlashFree(parts: seq<string>) {
    forall i :: 0 <= i < |parts| ==> '/' !in parts[i]
  }

  function EncodeAll(tokens: Tokens): (parts: seq<string>)
    ensures |parts| == |tokens|
  {
    seq(|tokens|, i requires 0 <= i < |tokens| => Encode(tokens[i]))
  }

  function Join(parts: seq<string>): string
  {
    if parts == [] then [] else "/" + parts[0] + Join(parts[1..])
  }

  lemma {:induction false} FormatIsJoin(tokens: Tokens)
    ensures Format(tokens) == Join(EncodeAll(tokens))
    ensures SlashFree(EncodeAll(tokens))
  {
    forall i | 0 <= i < |tokens| ensures '/' !in Encode(tokens[i]) {
      TwoPassEncode(tokens[i]);
      EncodeOnceShape(tokens[i]);
    }
    if tokens != [] {
      FormatIsJoin(tokens[1..]);
      assert EncodeAll(tokens)[1..] == EncodeAll(tokens[1..]);
    }
  }

  lemma {:induction false} SplitAppend(s: string, t: string)
    requires '/' !in s && (t == [] || t[0] == '/')
    ensures Split(s + t) == [s] + (if t == [] then [] else Split(t[1..]))
  {
    if s == [] {
      assert s + t == t;
    } else {
      SplitAppend(s[1..], t);
      assert (s + t)[1..] == s[1..] + t;
      assert s == [s[0]] + s[1..];
    }
  }

  /** Splitting the joined text of slash-free segments gives the segments back. */
  lemma {:induction false} SplitJoin(parts: seq<string>)
    requires parts != [] && SlashFree(parts)
    ensures Join(parts) != [] && Join(parts)[0] == '/'
    ensures Split(Join(parts)[1..]) == parts
  {
    JoinHead(parts);
    if |parts| > 1 {
      SplitJoin(parts[1..]);
    }
    SplitAppend(parts[0], Join(parts[1..]));
    assert parts == [parts[0]] + parts[1..];
  }

  lemma JoinHead(parts: seq<string>)
    requires parts != []
    ensures Join(parts) != [] && Join(parts)[0] == '/' && Join(parts)[1..] == parts[0] + Join(parts[1..])
    ensures |parts| == 1 ==> Join(parts[1..]) == []
  {
    DropSlash(parts[0], Join(parts[1..]));
    if |parts| == 1 { assert parts[1..] == []; }
  }

  lemma DropSlash(x: string, y: string)
    ensures var s := "/" + x + y; s != [] && s[0] == '/' && s[1..] == x + y
  {
    Associative("/", x, y);
  }

  lemma {:induction false} SplitParts(s: string)
    ensures SlashFree(Split(s))
    ensures Join(Split(s)) == "/" + s
  {
    if s != [] {
      SplitParts(s[1..]);
      var rest := Split(s[1..]);
      if s[0] == '/' {
        assert Split(s)[1..] == rest;
      } else {
        assert Split(s)[1..] == rest[1..];
        GrowFirst(s[0], rest[0], Join(rest[1..]), s[1..]);
        assert s == [s[0]] + s[1..];
      }
    }
  }

  lemma GrowFirst(c: char, part: string, tail: string, s: string)
    requires "/" + part + tail == "/" + s
    ensures "/" + ([c] + part) + tail == "/" + ([c] + s)
  {
    assert s == ("/" + s)[1..] == ("/" + part + tail)[1..] == part + tail;
  }

  /** Printing tokens and parsing them again is the identity exactly for a non-empty list
      of non-empty tokens; any other list prints a pointer the parser refuses. */
  lemma ParseFormat(tokens: Tokens)
    ensures Parse(Format(tokens)) == if tokens != [] && NonEmptyTokens(tokens) then Some(tokens) else None
  {
    if tokens != [] {
      var parts := EncodeAll(tokens);
      FormatIsJoin(tokens);
      SplitJoin(parts);
      forall i | 0 <= i < |tokens|
        ensures parts[i] == [] <==> tokens[i] == []
        ensures Decode(parts[i]) == tokens[i]
      {
        TwoPassEncode(tokens[i]);
        EncodeOnceShape(tokens[i]);
        TwoPassDecode(parts[i]);
        DecodeEncodeOnce(tokens[i]);
      }
      assert DecodeAll(parts) == tokens;
    }
  }

  /** Two different token lists never print the same pointer, so a captured value is
      never recorded under another field's key. */
  lemma FormatInjective(a: Tokens, b: Tokens)
    requires Format(a) == Format(b)
    ensures a == b
  {
    FormatIsJoin(a);
    FormatIsJoin(b);
    if a != [] && b != [] {
      SplitJoin(EncodeAll(a));
      SplitJoin(EncodeAll(b));
      forall i | 0 <= i < |a| ensures a[i] == b[i] {
        assert EncodeAll(a)[i] == EncodeAll(b)[i];
        TwoPassEncode(a[i]);
        TwoPassEncode(b[i]);
        DecodeEncodeOnce(a[i]);
        DecodeEncodeOnce(b[i]);
      }
    }
  }

  /** A pointer the parser accepts is printed back unchanged exactly when each "~" in
      it begins "~0" or "~1". */
  lemma FormatParse(pointer: string)
    requires Parse(pointer).Some?
    ensures Format(Parse(pointer).value) == pointer <==> WellEscaped(pointer)
  {
    var parts := Split(pointer[1..]);
    var tokens := DecodeAll(parts);
    SplitParts(pointer[1..]);
    assert pointer == Join(parts);
    FormatIsJoin(tokens);
    var back := EncodeAll(tokens);
    assert Join(back) == Join(parts) <==> back == parts by {
      SplitJoin(back);
      SplitJoin(parts);
    }
    forall i | 0 <= i < |parts|
      ensures back[i] == parts[i] <==> WellEscaped(parts[i])
    {
      TwoPassDecode(parts[i]);
      TwoPassEncode(tokens[i]);
      EncodeDecodeOnce(parts[i]);
    }
    WellEscapedJoin(parts);
  }

  lemma {:induction false} WellEscapedJoin(parts: seq<string>)
    requires SlashFree(parts)
    ensures WellEscaped(Join(parts)) <==> forall i :: 0 <= i < |parts| ==> WellEscaped(parts[i])
  {
    if parts != [] {
      var rest := Join(parts[1..]);
      WellEscapedJoin(parts[1..]);
      WellEscapedPart(parts[0], rest);
      assert Join(parts) == "/" + parts[0] + rest;
      assert forall i :: 0 < i < |parts| ==> parts[i] == parts[1..][i - 1];
    }
  }

  lemma WellEscapedPart(part: string, rest: string)
    requires rest == [] || rest[0] == '/'
    ensures WellEscaped("/" + part + rest) <==> WellEscaped(part) && WellEscaped(rest)
  {
    WellEscapedAppend(part, rest);
    assert ("/" + part + rest)[1..] == part + rest;
    WellEscapedTail("/" + part + rest, 1);
  }

  lemma WellEscapedAppend(a: string, b: string)
    requires b == [] || b[0] == '/'
    ensures WellEscaped(a + b) <==> WellEscaped(a) && WellEscaped(b)
  {
    assert (a + b)[|a|..] == b;
    if WellEscaped(a) {
      forall i | 0 <= i < |a| && (a + b)[i] == '~'
        ensures i + 1 < |a + b| && ((a + b)[i + 1] == '0' || (a + b)[i + 1] == '1')
      {
        assert a[i] == '~';
      }
      WellEscapedTail(a + b, |a|);
    }
    if WellEscaped(a + b) {
      assert forall i :: 0 <= i < |a| ==> (a + b)[i] == a[i];
      assert forall i :: 0 <= i < |a| && a[i] == '~' ==> (a + b)[i] == '~';
      WellEscapedTail(a + b, |a|);
    }
  }
}
