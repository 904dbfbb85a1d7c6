/**
 * Placeholder discovery shared by every generator's `get_template_fields`:
 * `re.findall(r'\{\{([^}]+)\}\}', text)` over each text of a template,
 * the union of the names found, and `sorted(...)` of that set.
 */
module FieldNames {
  import opened Wrappers
  import opened Strings

  /** Length of the longest prefix of s free of '}': what `[^}]+` consumes greedily. */
  function RunLength(s: string): (n: nat)
    ensures n <= |s|
    ensures forall k :: 0 <= k < n ==> s[k] != '}'
    ensures n < |s| ==> s[n] == '}'
  {
    if s == [] || s[0] == '}' then 0 else 1 + RunLength(s[1..])
  }

  /**
   * The group captured by `\{\{([^}]+)\}\}` when the pattern matches at the
   * very start of s. Giving back characters of `[^}]+` cannot help, because
   * the character after a shorter run is not '}'.
   */
  function MatchAt(s: string): Option<string>
  {
    if 2 <= |s| && s[0] == '{' && s[1] == '{' then
      var k := RunLength(s[2..]);
      if 1 <= k && k + 4 <= |s| && s[k + 2] == '}' && s[k + 3] == '}' then Some(s[2..k + 2]) else None
    else None
  }

  /** `re.findall` of the placeholder pattern: captured names, left to right, without overlaps. */
  function FindFields(s: string): seq<string>
    decreases |s|
  {
    if s == [] then []
    else match MatchAt(s)
      case Some(name) => [name] + FindFields(s[|name| + 4..])
      case None => FindFields(s[1..])
  }

  /** A name accepted by the pattern: at least one character and no closing brace. */
  predicate WellFormedName(n: string)
  {
    n != [] && '}' !in n
  }

  lemma MatchAtIsToken(s: string)
    requires MatchAt(s).Some?
    ensures WellFormedName(MatchAt(s).value)
    ensures |MatchAt(s).value| + 4 <= |s| && s[..|MatchAt(s).value| + 4] == Token(MatchAt(s).value)
  {
    var n := MatchAt(s).value;
    assert forall k :: 0 <= k < |n| ==> n[k] == s[2..][k];
  }

  /** Every name found is well formed, and its token occurs in the text. */
  lemma {:induction false} FoundNamesWellFormed(s: string)
    ensures forall n :: n in FindFields(s) ==> WellFormedName(n) && Contains(s, Token(n))
    decreases |s|
  {
    if s != [] {
      match MatchAt(s)
      case Some(name) =>
        var L := |name| + 4;
        MatchAtIsToken(s);
        FoundNamesWellFormed(s[L..]);
        assert s == s[..L] + s[L..];
        ContainsAt(s, Token(name), 0);
        forall n | n in FindFields(s[L..]) ensures Contains(s, Token(n)) {
          ContainsInConcat(s[..L], s[L..], Token(n));
        }
      case None =>
        FoundNamesWellFormed(s[1..]);
        assert s == s[..1] + s[1..];
        forall n | n in FindFields(s[1..]) ensures Contains(s, Token(n)) {
          ContainsInConcat(s[..1], s[1..], Token(n));
        }
    }
  }

  lemma {:induction false} RunLengthOfName(p: string, x: string)
    requires '}' !in p
    ensures RunLength(p + "}" + x) == |p|
    decreases |p|
  {
    if p != [] {
      assert (p + "}" + x)[1..] == p[1..] + "}" + x;
      RunLengthOfName(p[1..], x);
    }
  }

  /** Text free of '{' yields no names and is skipped by the scan. */
  lemma {:induction false} FindFieldsSkipsPlainText(p: string, x: string)
    requires '{' !in p
    ensures FindFields(p + x) == FindFields(x)
    decreases |p|
  {
    if p != [] {
      assert MatchAt(p + x).None?;
      assert (p + x)[1..] == p[1..] + x;
      FindFieldsSkipsPlainText(p[1..], x);
    } else {
      assert p + x == x;
    }
  }

  /** A token at the front of the text is found, and scanning resumes right after it. */
  lemma FindFieldsOfToken(name: string, x: string)
    requires WellFormedName(name)
    ensures FindFields(Token(name) + x) == [name] + FindFields(x)
  {
    var s := Token(name) + x;
    assert s[2..] == name + "}" + ("}" + x);
    RunLengthOfName(name, "}" + x);
    assert s[2..|name| + 2] == name;
    assert MatchAt(s) == Some(name);
    assert s[|name| + 4..] == x;
  }

  /** A template text: brace-free literal parts around the tokens of the given names. */
  function Render(parts: seq<string>, names: seq<string>): string
    requires |parts| == |names| + 1
  {
    if names == [] then parts[0]
    else parts[0] + Token(names[0]) + Render(parts[1..], names[1..])
  }

  /** Rendering names into a template and extracting its fields gives the names back, in order. */
  lemma {:induction false} FindFieldsOfRender(parts: seq<string>, names: seq<string>)
    requires |parts| == |names| + 1
    requires forall k :: 0 <= k < |parts| ==> '{' !in parts[k]
    requires forall k :: 0 <= k < |names| ==> WellFormedName(names[k])
    ensures FindFields(Render(parts, names)) == names
  {
    if names == [] {
      FindFieldsSkipsPlainText(parts[0], []);
      assert parts[0] + [] == parts[0];
    } else {
      var rest := Render(parts[1..], names[1..]);
      FindFieldsOfRender(parts[1..], names[1..]);
      assert Render(parts, names) == parts[0] + (Token(names[0]) + rest);
      FindFieldsSkipsPlainText(parts[0], Token(names[0]) + rest);
      FindFieldsOfToken(names[0], rest);
    }
  }

  /** The names found in a sequence of texts: the set `fields.update(...)` accumulates. */
  function NamesIn(texts: seq<string>): set<string>
  {
    if texts == [] then {}
    else
      var found := FindFields(texts[|texts| - 1]);
      NamesIn(texts[..|texts| - 1]) + (set n | n in found)
  }

  lemma {:induction false} NamesInAppend(a: seq<string>, b: seq<string>)
    ensures NamesIn(a + b) == NamesIn(a) + NamesIn(b)
    decreases |b|
  {
    if b == [] {
      assert a + b == a;
    } else {
      var b' := b[..|b| - 1];
      assert (a + b)[..|a + b| - 1] == a + b';
      NamesInAppend(a, b');
    }
  }

  /** Every accumulated name is well formed and its token occurs in one of the texts. */
  lemma {:induction false} NamesInWellFormed(texts: seq<string>, n: string)
    requires n in NamesIn(texts)
    ensures WellFormedName(n)
    ensures exists i :: 0 <= i < |texts| && Contains(texts[i], Token(n))
  {
    var last := texts[|texts| - 1];
    if n in FindFields(last) {
      FoundNamesWellFormed(last);
    } else {
      NamesInWellFormed(texts[..|texts| - 1], n);
      var i :| 0 <= i < |texts| - 1 && Contains(texts[..|texts| - 1][i], Token(n));
      assert texts[i] == texts[..|texts| - 1][i];
    }
  }

  /** The least element of a non-empty set of strings, in Python's order. */
  method Minimum(names: set<string>) returns (m: string)
    requires names != {}
    ensures m in names
    ensures forall x :: x in names && x != m ==> Less(m, x)
  {
    m :| m in names;
    var todo := names - {m};
    while todo != {}
      invariant todo <= names && m in names && m !in todo
      invariant forall x :: x in names - todo && x != m ==> Less(m, x)
      decreases |todo|
    {
      var x :| x in todo;
      if Less(x, m) {
        forall y | y in names - todo && y != x
          ensures Less(x, y)
        {
          if y != m {
            LessTransitive(x, m, y);
          }
        }
        m := x;
      } else {
        LessTotal(x, m);
      }
      todo := todo - {x};
    }
  }

  /** `sorted(list(names))`: the names in increasing order, each once. */
  method SortNames(names: set<string>) returns (r: seq<string>)
    ensures StrictlySorted(r)
    ensures forall x :: x in r <==> x in names
    ensures |r| == |names|
  {
    r := [];
    var rest := names;
    while rest != {}
      invariant rest <= names
      invariant forall x :: x in r <==> x in names && x !in rest
      invariant |r| + |rest| == |names|
      invariant StrictlySorted(r)
      invariant forall i, y :: 0 <= i < |r| && y in rest ==> Less(r[i], y)
      decreases |rest|
    {
      var m := Minimum(rest);
      r := r + [m];
      rest := rest - {m};
    }
  }

  /** The names found in some texts, searched one after the other. */
  method TextNames(texts: seq<string>) returns (names: set<string>)
    ensures names == NamesIn(texts)
  {
    names := {};
    for m := 0 to |texts|
      invariant names == NamesIn(texts[..m])
    {
      var found := FindFields(texts[m]);
      assert texts[..m + 1][..m] == texts[..m];
      names := names + (set n | n in found);
    }
    assert texts[..|texts|] == texts;
  }

  /**
   * The list every `get_template_fields` returns for the names collected
   * from some texts: sorted, each name once, every name well formed and
   * its token present in one of the texts.
   */
  method SortedFields(ghost texts: seq<string>, names: set<string>) returns (r: seq<string>)
    requires names == NamesIn(texts)
    ensures StrictlySorted(r)
    ensures forall n :: n in r <==> n in NamesIn(texts)
    ensures forall n :: n in r ==> WellFormedName(n)
    ensures forall n :: n in r ==> exists i :: 0 <= i < |texts| && Contains(texts[i], Token(n))
  {
    r := SortNames(names);
    forall n | n in r
      ensures WellFormedName(n)
      ensures exists i :: 0 <= i < |texts| && Contains(texts[i], Token(n))
    {
      NamesInWellFormed(texts, n);
    }
  }
}
