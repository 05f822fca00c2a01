/**
 * What the three analysis agents share: the reply of a language-model call,
 * and the placeholder substitution of `_fill_content_into_template` used by
 * the tag and company agents.
 */
module Prompts {
  import opened Wrappers
  import opened PyText

  /** The reply of a language-model call: its text, or the message of the exception it raised. */
  datatype LlmReply = Answer(text: string) | Raised(error: string)

  /** The block every filled tag or company template ends with, before the content. */
  const ContentBlock: string := "\n\n文本内容：\n"

  /** A placeholder and the text that replaces it. */
  type Substitution = (string, string)

  /** Placeholders are non-empty and begin with a brace. */
  predicate Placeholders(subs: seq<Substitution>) {
    forall i :: 0 <= i < |subs| ==> |subs[i].0| > 0 && subs[i].0[0] == '{'
  }

  /** Every placeholder is closed by a brace as well: `{name}` or `{{name}}`. */
  predicate Delimited(subs: seq<Substitution>) {
    forall i :: 0 <= i < |subs| ==> |subs[i].0| > 0 && subs[i].0[|subs[i].0| - 1] == '}'
  }

  /** A text without braces, which no placeholder can begin or end inside. */
  predicate BraceFree(v: string) {
    '{' !in v && '}' !in v
  }

  /** `template = template.replace(placeholder, value)` for each substitution in turn. */
  function Substitute(t: string, subs: seq<Substitution>): string
    requires Placeholders(subs)
    decreases |subs|
  {
    if |subs| == 0 then t else Substitute(Replace(t, subs[0].0, subs[0].1), subs[1..])
  }

  /**
   * `_fill_content_into_template` of the tag and company agents: no template
   * gives the content itself; otherwise the substituted template is always
   * followed by the content block and the content, placeholder or not.
   */
  function FillTemplate(template: Option<string>, subs: seq<Substitution>, content: string): (r: string)
    requires Placeholders(subs)
    ensures template.None? ==> r == content
    ensures template.Some? ==> r == Substitute(template.value, subs) + ContentBlock + content
    ensures template.Some? && '{' !in template.value ==> r == template.value + ContentBlock + content
    ensures template.Some? ==> EndsWith(r, ContentBlock + content)
    ensures Contains(r, content)
  {
    if template.None? then
      ContainsWitness(content, content, 0);
      content
    else
      var head := Substitute(template.value, subs);
      Appended(head, ContentBlock, content);
      if '{' in template.value then head + ContentBlock + content
      else
        SubstituteNoBraces(template.value, subs);
        head + ContentBlock + content
  }

  /** `a + b + c` ends with `b + c` and holds `c` at the end. */
  lemma Appended(a: string, b: string, c: string)
    ensures EndsWith(a + b + c, b + c)
    ensures Contains(a + b + c, c)
  {
    var r := a + b + c;
    assert r == a + (b + c);
    assert r[|r| - |b + c|..] == b + c;
    assert r[|a + b|..|a + b| + |c|] == c;
    ContainsWitness(r, c, |a + b|);
  }

  /** `a + c + b` contains `c`. */
  lemma Embedded(a: string, c: string, b: string)
    ensures Contains(a + c + b, c)
  {
    var r := a + c + b;
    assert r[|a|..|a| + |c|] == c;
    ContainsWitness(r, c, |a|);
  }

  /** An occurrence of a non-empty pattern contains its first character. */
  lemma {:induction false} ContainsHead(s: string, sub: string)
    requires |sub| > 0 && Contains(s, sub)
    ensures sub[0] in s
    decreases |s|
  {
    if StartsWith(s, sub) {
      assert s[0] == sub[0];
    } else {
      ContainsHead(s[1..], sub);
    }
  }

  /** A template without braces is left as it is by every substitution. */
  lemma {:induction false} SubstituteNoBraces(t: string, subs: seq<Substitution>)
    requires Placeholders(subs)
    requires '{' !in t
    ensures Substitute(t, subs) == t
    decreases |subs|
  {
    if |subs| > 0 {
      if Contains(t, subs[0].0) {
        ContainsHead(t, subs[0].0);
      }
      SubstituteNoBraces(t, subs[1..]);
    }
  }

  /** Replacing a pattern that occurs puts the replacement in the text. */
  lemma {:induction false} ReplaceCarries(s: string, pat: string, rep: string)
    requires |pat| > 0 && Contains(s, pat)
    ensures Contains(Replace(s, pat, rep), rep)
    decreases |s|
  {
    var r := Replace(s, pat, rep);
    if StartsWith(s, pat) {
      assert r == rep + Replace(s[|pat|..], pat, rep);
      assert r[..|rep|] == rep;
      ContainsWitness(r, rep, 0);
    } else {
      ReplaceCarries(s[1..], pat, rep);
      var tail := Replace(s[1..], pat, rep);
      assert r == [s[0]] + tail;
      ContainsAt(tail, rep);
      var i :| OccursAt(tail, rep, i);
      assert r[i + 1..i + 1 + |rep|] == tail[i..i + |rep|];
      ContainsWitness(r, rep, i + 1);
    }
  }

  /** A text that starts with a brace-free prefix still starts with it after a placeholder is replaced. */
  lemma {:induction false} ReplaceKeepsPrefix(s: string, w: string, pat: string, rep: string)
    requires |pat| > 0 && pat[0] == '{'
    requires '{' !in w && StartsWith(s, w)
    ensures StartsWith(Replace(s, pat, rep), w)
    decreases |w|
  {
    if |w| > 0 && |s| >= |pat| {
      assert s[0] == w[0];
      assert !StartsWith(s, pat);
      assert Replace(s, pat, rep) == [s[0]] + Replace(s[1..], pat, rep);
      assert s[1..][..|w| - 1] == w[1..];
      ReplaceKeepsPrefix(s[1..], w[1..], pat, rep);
    }
  }

  /** A text that occurs in `t` occurs in anything ending with `t`. */
  lemma ContainsAfter(a: string, t: string, v: string)
    requires Contains(t, v)
    ensures Contains(a + t, v)
  {
    ContainsAt(t, v);
    var j :| OccursAt(t, v, j);
    assert (a + t)[|a| + j..|a| + j + |v|] == t[j..j + |v|];
    ContainsWitness(a + t, v, |a| + j);
  }

  /** An occurrence at or after position `k` is one in `s[k..]`. */
  lemma OccursInRest(s: string, v: string, i: int, k: nat)
    requires OccursAt(s, v, i) && k <= i
    ensures Contains(s[k..], v)
  {
    assert s[k..][i - k..i - k + |v|] == s[i..i + |v|];
    ContainsWitness(s[k..], v, i - k);
  }

  /** A non-empty brace-free text that `pat` does not contain cannot start inside a leading `pat`. */
  lemma OutsidePlaceholder(s: string, v: string, pat: string, i: int)
    requires |pat| > 0 && pat[|pat| - 1] == '}' && StartsWith(s, pat)
    requires |v| > 0 && BraceFree(v) && !Contains(pat, v)
    requires OccursAt(s, v, i)
    ensures i >= |pat|
  {
    if i < |pat| && i + |v| <= |pat| {
      assert pat[i..i + |v|] == s[i..i + |v|];
      ContainsWitness(pat, v, i);
    }
  }

  /**
   * A brace-free text that occurs outside every occurrence of a `{…}`
   * placeholder survives the replacement of that placeholder.
   */
  lemma {:induction false} ReplaceKeeps(s: string, v: string, pat: string, rep: string)
    requires |pat| > 0 && pat[0] == '{' && pat[|pat| - 1] == '}'
    requires BraceFree(v) && !Contains(pat, v)
    requires Contains(s, v)
    ensures Contains(Replace(s, pat, rep), v)
    decreases |s|
  {
    if |v| == 0 {
      assert StartsWith(Replace(s, pat, rep), v);
    } else if |s| >= |pat| {
      ContainsAt(s, v);
      var i :| OccursAt(s, v, i);
      if i == 0 {
        ReplaceKeepsPrefix(s, v, pat, rep);
      } else if StartsWith(s, pat) {
        OutsidePlaceholder(s, v, pat, i);
        OccursInRest(s, v, i, |pat|);
        ReplaceKeeps(s[|pat|..], v, pat, rep);
        ContainsAfter(rep, Replace(s[|pat|..], pat, rep), v);
      } else {
        OccursInRest(s, v, i, 1);
        ReplaceKeeps(s[1..], v, pat, rep);
        ContainsAfter([s[0]], Replace(s[1..], pat, rep), v);
      }
    }
  }

  /** A brace-free text that no later placeholder contains survives the remaining substitutions. */
  lemma {:induction false} SubstituteKeeps(s: string, v: string, subs: seq<Substitution>)
    requires Placeholders(subs) && Delimited(subs)
    requires BraceFree(v) && forall m :: 0 <= m < |subs| ==> !Contains(subs[m].0, v)
    requires Contains(s, v)
    ensures Contains(Substitute(s, subs), v)
    decreases |subs|
  {
    if |subs| > 0 {
      ReplaceKeeps(s, v, subs[0].0, subs[0].1);
      SubstituteKeeps(Replace(s, subs[0].0, subs[0].1), v, subs[1..]);
    }
  }

  /** Substituting a list in two parts is substituting it whole. */
  lemma {:induction false} SubstituteSplit(t: string, subs: seq<Substitution>, k: nat)
    requires Placeholders(subs) && k <= |subs|
    ensures Placeholders(subs[..k]) && Placeholders(subs[k..])
    ensures Substitute(t, subs) == Substitute(Substitute(t, subs[..k]), subs[k..])
    decreases k
  {
    if k > 0 {
      assert subs[1..][..k - 1] == subs[1..k];
      assert subs[1..][k - 1..] == subs[k..];
      SubstituteSplit(Replace(t, subs[0].0, subs[0].1), subs[1..], k - 1);
      assert subs[..k][1..] == subs[1..k];
    }
  }

  /**
   * A placeholder that occurs when its turn comes puts its value into the
   * filled template, as long as that value has no braces and no later
   * placeholder contains it.
   */
  lemma SubstitutePlaces(t: string, subs: seq<Substitution>, k: nat)
    requires Placeholders(subs) && Delimited(subs) && k < |subs|
    requires Contains(Substitute(t, subs[..k]), subs[k].0)
    requires BraceFree(subs[k].1) && forall m :: k < m < |subs| ==> !Contains(subs[m].0, subs[k].1)
    ensures Contains(Substitute(t, subs), subs[k].1)
  {
    SubstituteSplit(t, subs, k);
    var turn := Substitute(t, subs[..k]);
    var placed := Replace(turn, subs[k].0, subs[k].1);
    ReplaceCarries(turn, subs[k].0, subs[k].1);
    assert subs[k..][1..] == subs[k + 1..];
    assert Substitute(turn, subs[k..]) == Substitute(placed, subs[k + 1..]);
    SubstituteKeeps(placed, subs[k].1, subs[k + 1..]);
  }
}
