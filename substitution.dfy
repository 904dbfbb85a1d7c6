/**
 * The run-level and cell-level substitution the simple generators share:
 * each field of the mapping, in order, has every occurrence of its token
 * replaced by `str(value)` in the current text.
 */
module Substitution {
  import opened Wrappers
  import opened Strings
  import opened Values
  import opened Shapes

  /** One field applied to a text: its token, when present, replaced everywhere by the value's `str`. */
  function FieldApplied(s: string, f: Field): string
  {
    if Contains(s, Token(f.name)) then Replace(s, Token(f.name), Str(f.value)) else s
  }

  /** The `in` test before each replacement changes nothing: the step is a plain replace. */
  lemma FieldAppliedIsReplace(s: string, f: Field)
    ensures FieldApplied(s, f) == Replace(s, Token(f.name), Str(f.value))
  {
    if !Contains(s, Token(f.name)) {
      ReplaceAbsent(s, Token(f.name), Str(f.value));
    }
  }

  /** The first n fields applied in turn, each to the text the previous ones left. */
  function Substituted(s: string, fields: Fields, n: nat): string
    requires n <= |fields|
  {
    if n == 0 then s else FieldApplied(Substituted(s, fields, n - 1), fields[n - 1])
  }

  /** A text holding no token of the fields ends exactly as it began. */
  lemma {:induction false} SubstitutedWithoutTokens(s: string, fields: Fields, n: nat)
    requires n <= |fields|
    requires forall j :: 0 <= j < n ==> !Contains(s, Token(fields[j].name))
    ensures Substituted(s, fields, n) == s
  {
    if n > 0 {
      SubstitutedWithoutTokens(s, fields, n - 1);
    }
  }

  /**
   * Fields are applied to the current text, not the original: a value
   * inserted for an earlier field that is itself a later field's token is
   * replaced in its turn.
   */
  lemma LaterFieldRewritesEarlierValue(a: string, b: string, v: Value)
    ensures Substituted(Token(a), [Field(a, VStr(Token(b))), Field(b, v)], 2) == Str(v)
  {
    var fields := [Field(a, VStr(Token(b))), Field(b, v)];
    TokenBecomes(a, Token(b));
    assert Substituted(Token(a), fields, 1) == Token(b);
    TokenBecomes(b, Str(v));
  }

  /** A text that is exactly a field's token becomes that field's value. */
  lemma TokenBecomes(name: string, value: string)
    ensures FieldApplied(Token(name), Field(name, VStr(value))) == value
  {
    var t := Token(name);
    ContainsAt(t, t, 0);
    assert t == t + [];
    ReplaceAtFront([], t, value);
    assert value + [] == value;
  }

  /** Brace-free field names, each used once, as the keys of a mapping of plain names are. */
  ghost predicate DistinctPlainNames(fields: Fields)
  {
    (forall j :: 0 <= j < |fields| ==> BraceFree(fields[j].name))
    && (forall i, j :: 0 <= i < j < |fields| ==> fields[i].name != fields[j].name)
  }

  /** Fields before field k leave a text reading as field k's token alone. */
  lemma {:induction false} OwnTokenUntouchedBefore(fields: Fields, k: nat, n: nat)
    requires n <= k < |fields| && DistinctPlainNames(fields)
    ensures Substituted(Token(fields[k].name), fields, n) == Token(fields[k].name)
  {
    if n > 0 {
      OwnTokenUntouchedBefore(fields, k, n - 1);
      if Contains(Token(fields[k].name), Token(fields[n - 1].name)) {
        TokenInToken(fields[k].name, fields[n - 1].name);
      }
    }
  }

  /**
   * With brace-free, distinct names, a text reading exactly `{{name}}` of
   * field k ends as `str(value)` of field k, provided that value holds no
   * later field's token.
   */
  lemma {:induction false} LoneTokenSubstituted(fields: Fields, k: nat, n: nat)
    requires k < n <= |fields| && DistinctPlainNames(fields)
    requires forall j :: k < j < |fields| ==> !Contains(Str(fields[k].value), Token(fields[j].name))
    ensures Substituted(Token(fields[k].name), fields, n) == Str(fields[k].value)
    decreases n
  {
    var t := Token(fields[k].name);
    if n == k + 1 {
      OwnTokenUntouchedBefore(fields, k, k);
      ContainsAt(t, t, 0);
      assert t == t + [];
      ReplaceAtFront([], t, Str(fields[k].value));
      assert Str(fields[k].value) + [] == Str(fields[k].value);
    } else {
      LoneTokenSubstituted(fields, k, n - 1);
    }
  }

  /** The field loop over one text, with the `in` test the generators make before replacing. */
  method SubstituteText(s: string, fields: Fields) returns (r: string)
    ensures r == Substituted(s, fields, |fields|)
  {
    r := s;
    for n := 0 to |fields|
      invariant r == Substituted(s, fields, n)
    {
      var placeholder := Token(fields[n].name);
      if Contains(r, placeholder) {
        r := Replace(r, placeholder, Str(fields[n].value));
      }
    }
  }

  /** Every run of a paragraph with every field substituted in its own text. */
  function RunsSubstituted(p: Paragraph, fields: Fields): (q: Paragraph)
    ensures |q.runs| == |p.runs| && q.level == p.level && q.alignment == p.alignment
    ensures forall i :: 0 <= i < |p.runs| ==> q.runs[i].format == p.runs[i].format
  {
    p.(runs := seq(|p.runs|, i requires 0 <= i < |p.runs| => p.runs[i].(text := Substituted(p.runs[i].text, fields, |fields|))))
  }

  /**
   * Substitution works inside runs: a paragraph none of whose runs holds a
   * whole token is unchanged, even when its joined text holds one.
   */
  lemma SplitTokenSurvives(p: Paragraph, fields: Fields)
    requires forall i, j :: 0 <= i < |p.runs| && 0 <= j < |fields| ==> !Contains(p.runs[i].text, Token(fields[j].name))
    ensures RunsSubstituted(p, fields) == p
  {
    var q := RunsSubstituted(p, fields);
    forall i | 0 <= i < |p.runs|
      ensures q.runs[i] == p.runs[i]
    {
      SubstitutedWithoutTokens(p.runs[i].text, fields, |fields|);
    }
  }

  /** `{{name}}` typed as the two runs `{{na` and `me}}`: the paragraph reads `{{name}}`, yet no run holds the token. */
  lemma SplitTokenExample(value: Value)
    ensures var p := Paragraph([Run("{{na", 0), Run("me}}", 0)], 0, None);
      Contains(ParagraphText(p), Token("name"))
      && RunsSubstituted(p, [Field("name", value)]) == p
  {
    var runs := [Run("{{na", 0), Run("me}}", 0)];
    var p := Paragraph(runs, 0, None);
    assert runs[..1] == [Run("{{na", 0)] && runs[..1][..0] == [];
    assert RunsText(runs[..1]) == [] + "{{na";
    assert ParagraphText(p) == RunsText(runs[..1]) + "me}}";
    assert ParagraphText(p) == "{{na" + "me}}";
    assert ParagraphText(p) == Token("name");
    ContainsAt(ParagraphText(p), Token("name"), 0);
    ContainsLength("{{na", Token("name"));
    ContainsLength("me}}", Token("name"));
    SplitTokenSurvives(p, [Field("name", value)]);
  }
}
