/**
 * Python string operations the generators rely on, on `string` (a sequence
 * of code points): substring test (`t in s`), `str.replace`, `str.strip`,
 * `str.split` on one character, `"sep".join`, code-point ordering of
 * strings (what `sorted` uses) and `str()` of an integer.
 */
module Strings {

  /** Python's `t in s`: t occurs as a contiguous block of s. */
  predicate Contains(s: string, t: string)
    decreases |s|
  {
    t <= s || (s != [] && Contains(s[1..], t))
  }

  lemma {:induction false} ContainsAt(s: string, t: string, i: nat)
    requires i + |t| <= |s| && s[i..i + |t|] == t
    ensures Contains(s, t)
  {
    if i == 0 {
      assert t <= s;
    } else {
      assert s[1..][i - 1..i - 1 + |t|] == t;
      ContainsAt(s[1..], t, i - 1);
    }
  }

  /** An occurrence in a part is an occurrence in the whole. */
  lemma {:induction false} ContainsInConcat(a: string, b: string, t: string)
    ensures Contains(a, t) ==> Contains(a + b, t)
    ensures Contains(b, t) ==> Contains(a + b, t)
    decreases |a|
  {
    if a == [] {
      assert a + b == b;
    } else {
      assert (a + b)[1..] == a[1..] + b;
      ContainsInConcat(a[1..], b, t);
    }
  }

  /** A text holds only texts no longer than itself. */
  lemma {:induction false} ContainsLength(s: string, t: string)
    ensures Contains(s, t) ==> |t| <= |s|
    decreases |s|
  {
    if s != [] {
      ContainsLength(s[1..], t);
    }
  }

  lemma {:induction false} ContainsHead(s: string, t: string)
    requires t != [] && Contains(s, t)
    ensures t[0] in s
    decreases |s|
  {
    if !(t <= s) {
      ContainsHead(s[1..], t);
    }
  }

  /**
   * Python's `s.replace(pat, rep)`: every occurrence of pat, found scanning
   * left to right without overlaps, is replaced by rep. (Python also defines
   * an empty pattern; every caller here passes a non-empty one.)
   */
  function Replace(s: string, pat: string, rep: string): string
    requires pat != []
    decreases |s|
  {
    if s == [] then []
    else if pat <= s then rep + Replace(s[|pat|..], pat, rep)
    else [s[0]] + Replace(s[1..], pat, rep)
  }

  /** Replacing a pattern that does not occur changes nothing. */
  lemma {:induction false} ReplaceAbsent(s: string, pat: string, rep: string)
    requires pat != []
    requires !Contains(s, pat)
    ensures Replace(s, pat, rep) == s
    decreases |s|
  {
    if s != [] {
      ReplaceAbsent(s[1..], pat, rep);
    }
  }

  /** Replacing a pattern by itself changes nothing. */
  lemma {:induction false} ReplaceBySelf(s: string, pat: string)
    requires pat != []
    ensures Replace(s, pat, pat) == s
    decreases |s|
  {
    if s != [] {
      if pat <= s {
        ReplaceBySelf(s[|pat|..], pat);
        assert pat + s[|pat|..] == s;
      } else {
        ReplaceBySelf(s[1..], pat);
      }
    }
  }

  /** With a one-character pattern and replacement, replace is a character-for-character map. */
  lemma {:induction false} ReplaceOneChar(s: string, c: char, d: char)
    ensures |Replace(s, [c], [d])| == |s|
    ensures forall i :: 0 <= i < |s| ==> Replace(s, [c], [d])[i] == if s[i] == c then d else s[i]
    decreases |s|
  {
    if s != [] {
      ReplaceOneChar(s[1..], c, d);
      if [c] <= s {
        assert s[|[c]|..] == s[1..];
      }
    }
  }

  /** Text that cannot start an occurrence is copied through unchanged. */
  lemma {:induction false} ReplaceSkipsPrefix(p: string, x: string, pat: string, rep: string)
    requires pat != [] && pat[0] !in p
    ensures Replace(p + x, pat, rep) == p + Replace(x, pat, rep)
    decreases |p|
  {
    if p != [] {
      assert (p + x)[1..] == p[1..] + x;
      assert !(pat <= p + x);
      ReplaceSkipsPrefix(p[1..], x, pat, rep);
    } else {
      assert p + x == x;
    }
  }

  /** An occurrence at the front is replaced and scanning resumes after it. */
  lemma ReplaceAtFront(x: string, pat: string, rep: string)
    requires pat != []
    ensures Replace(pat + x, pat, rep) == rep + Replace(x, pat, rep)
  {
    assert pat <= pat + x;
    assert (pat + x)[|pat|..] == x;
  }

  /** Python's `sep.join(parts)`. */
  function Join(parts: seq<string>, sep: string): string
  {
    if |parts| == 0 then []
    else if |parts| == 1 then parts[0]
    else parts[0] + sep + Join(parts[1..], sep)
  }

  /** Python's `s.split(c)` for a one-character separator. */
  function Split(s: string, c: char): (parts: seq<string>)
    ensures |parts| >= 1
  {
    if s == [] then [[]]
    else
      var rest := Split(s[1..], c);
      if s[0] == c then [[]] + rest else [[s[0]] + rest[0]] + rest[1..]
  }

  /** Splitting on a character and joining with it gives the text back. */
  lemma {:induction false} SplitJoin(s: string, c: char)
    ensures Join(Split(s, c), [c]) == s
    ensures forall k :: 0 <= k < |Split(s, c)| ==> c !in Split(s, c)[k]
  {
    if s != [] {
      SplitJoin(s[1..], c);
      var rest := Split(s[1..], c);
      if s[0] == c {
        assert Split(s, c) == [[]] + rest;
        assert s == [] + [c] + Join(rest, [c]);
      } else {
        var parts := Split(s, c);
        assert parts == [[s[0]] + rest[0]] + rest[1..];
        if |rest| == 1 {
          assert Join(rest, [c]) == rest[0];
        } else {
          assert Join(rest, [c]) == rest[0] + [c] + Join(rest[1..], [c]);
          assert parts[1..] == rest[1..];
        }
        assert [s[0]] + Join(rest, [c]) == s;
      }
    }
  }

  /** Python's `str.isspace()` for one character: the characters `str.strip()` removes. */
  predicate IsSpace(c: char)
  {
    c == ' ' || c == '\t' || c == '\n' || c == '\r' || c == '\U{000B}' || c == '\U{000C}'
    || ('\U{001C}' <= c <= '\U{001F}') || c == '\U{0085}' || c == '\U{00A0}' || c == '\U{1680}'
    || ('\U{2000}' <= c <= '\U{200A}') || c == '\U{2028}' || c == '\U{2029}' || c == '\U{202F}'
    || c == '\U{205F}' || c == '\U{3000}'
  }

  function StripLeft(s: string): (r: string)
    ensures r == [] || !IsSpace(r[0])
    ensures |r| <= |s| && r == s[|s| - |r|..]
    ensures forall k :: 0 <= k < |s| - |r| ==> IsSpace(s[k])
  {
    if s != [] && IsSpace(s[0]) then StripLeft(s[1..]) else s
  }

  function StripRight(s: string): (r: string)
    ensures r == [] || !IsSpace(r[|r| - 1])
    ensures |r| <= |s| && r == s[..|r|]
    ensures forall k :: |r| <= k < |s| ==> IsSpace(s[k])
  {
    if s != [] && IsSpace(s[|s| - 1]) then StripRight(s[..|s| - 1]) else s
  }

  /** Python's `s.strip()` with no argument. */
  function Strip(s: string): string
  {
    StripRight(StripLeft(s))
  }

  /** The stripped text is empty exactly when every character is white space. */
  lemma StripEmpty(s: string)
    ensures Strip(s) == [] <==> forall k :: 0 <= k < |s| ==> IsSpace(s[k])
  {
  }

  /** Python's ordering of strings: lexicographic by code point. */
  predicate Less(a: string, b: string)
  {
    if a == [] then b != []
    else if b == [] then false
    else a[0] < b[0] || (a[0] == b[0] && Less(a[1..], b[1..]))
  }

  lemma {:induction false} LessIrreflexive(a: string)
    ensures !Less(a, a)
  {
    if a != [] {
      LessIrreflexive(a[1..]);
    }
  }

  lemma {:induction false} LessTransitive(a: string, b: string, c: string)
    requires Less(a, b) && Less(b, c)
    ensures Less(a, c)
    decreases |a|
  {
    if a != [] && b != [] && c != [] && a[0] == b[0] && b[0] == c[0] {
      LessTransitive(a[1..], b[1..], c[1..]);
    }
  }

  lemma {:induction false} LessTotal(a: string, b: string)
    requires a != b
    ensures Less(a, b) || Less(b, a)
    decreases |a|
  {
    if a != [] && b != [] && a[0] == b[0] {
      assert a == [a[0]] + a[1..] && b == [b[0]] + b[1..];
      LessTotal(a[1..], b[1..]);
    }
  }

  /** Strictly increasing in Python's string order, hence free of duplicates. */
  predicate StrictlySorted(r: seq<string>)
  {
    forall i, j :: 0 <= i < j < |r| ==> Less(r[i], r[j])
  }

  function DigitChar(d: nat): (c: char)
    requires d < 10
    ensures '0' <= c <= '9'
  {
    (48 + d) as char
  }

  function NatToString(n: nat): (r: string)
    ensures r != [] && forall k :: 0 <= k < |r| ==> '0' <= r[k] <= '9'
  {
    if n < 10 then [DigitChar(n)] else NatToString(n / 10) + [DigitChar(n % 10)]
  }

  /** Python's `str(i)` for an integer. */
  function IntToString(i: int): (r: string)
    ensures forall k :: 0 <= k < |r| ==> r[k] == '-' || '0' <= r[k] <= '9'
  {
    if i < 0 then "-" + NatToString(-i) else NatToString(i)
  }

  /** Python's f"{{{{{name}}}}}": the placeholder token `{{name}}` for a field. */
  function Token(name: string): (t: string)
    ensures |t| == |name| + 4 && t[..2] == "{{"
  {
    "{{" + name + "}}"
  }

  /** Every occurrence of a token contains a double opening brace. */
  lemma {:induction false} TokenNeedsOpenPair(s: string, name: string)
    requires Contains(s, Token(name))
    ensures Contains(s, "{{")
    decreases |s|
  {
    if Token(name) <= s {
      assert "{{" <= s;
    } else {
      TokenNeedsOpenPair(s[1..], name);
    }
  }

  predicate BraceFree(s: string)
  {
    '{' !in s && '}' !in s
  }

  /** A token of a brace-free name occurs inside another such token only when the names agree. */
  lemma TokenInToken(a: string, b: string)
    requires BraceFree(a) && BraceFree(b)
    requires Contains(Token(a), Token(b))
    ensures a == b
  {
    var ta, tb := Token(a), Token(b);
    if tb <= ta {
      assert tb[2 + |b|] == '}' && ta[2 + |b|] == tb[2 + |b|];
      assert forall k :: 0 <= k < |a| ==> ta[2 + k] == a[k];
      assert |a| == |b|;
      assert a == ta[2..2 + |a|] == tb[2..2 + |b|] == b;
    } else {
      assert Contains(ta[1..], tb);
      assert ta[1..] == "{" + a + "}}";
      assert !("{{" <= ta[1..]) by {
        if |a| > 0 { assert ta[1..][1] == a[0]; } else { assert ta[1..][1] == '}'; }
      }
      assert Contains(ta[2..], tb) by {
        assert ta[1..][1..] == ta[2..];
      }
      ContainsHead(ta[2..], tb);
      assert false;
    }
  }
}
