/** `buildUrl` from shared/routes.ts (lines 91-101): fills the `:key`
    placeholders of a route path from a parameter record. */
module Routes {
  import opened Wrappers

  /** `pat` occurs in `s` starting at index `j`. */
  predicate OccursAt(s: string, pat: string, j: nat) {
    j + |pat| <= |s| && s[j..j + |pat|] == pat
  }

  /** JavaScript's `s.includes(pat)`. */
  predicate Contains(s: string, pat: string) {
    exists j: nat | j <= |s| :: OccursAt(s, pat, j)
  }

  /** The first occurrence of `pat` in `s` at or after `from`. */
  function IndexOfFrom(s: string, pat: string, from: nat): (r: Option<nat>)
    ensures r.Some? ==> from <= r.value && OccursAt(s, pat, r.value)
    ensures r.Some? ==> forall j: nat :: from <= j < r.value ==> !OccursAt(s, pat, j)
    ensures r.None? ==> forall j: nat :: from <= j ==> !OccursAt(s, pat, j)
    decreases |s| - from
  {
    if from + |pat| > |s| then None
    else if s[from..from + |pat|] == pat then Some(from)
    else IndexOfFrom(s, pat, from + 1)
  }

  /** JavaScript's `s.indexOf(pat)`, with -1 as `None`. */
  function IndexOf(s: string, pat: string): (r: Option<nat>)
    ensures r.Some? <==> Contains(s, pat)
    ensures r.Some? ==> OccursAt(s, pat, r.value) && forall j: nat :: j < r.value ==> !OccursAt(s, pat, j)
  {
    IndexOfFrom(s, pat, 0)
  }

  /** The replacement text `String.prototype.replace` inserts for a string
      pattern: `$$` is a dollar sign, `$&` the matched text, `` $` `` the text
      before the match and `$'` the text after it; any other character,
      including a `$` that starts no such pair, stands for itself. */
  function Expand(rep: string, matched: string, before: string, after: string): (r: string)
    ensures '$' !in rep ==> r == rep
    decreases |rep|
  {
    if |rep| == 0 then ""
    else if rep[0] == '$' && |rep| >= 2 && rep[1] == '$' then "$" + Expand(rep[2..], matched, before, after)
    else if rep[0] == '$' && |rep| >= 2 && rep[1] == '&' then matched + Expand(rep[2..], matched, before, after)
    else if rep[0] == '$' && |rep| >= 2 && rep[1] == '`' then before + Expand(rep[2..], matched, before, after)
    else if rep[0] == '$' && |rep| >= 2 && rep[1] == '\'' then after + Expand(rep[2..], matched, before, after)
    else
      assert '$' !in rep ==> '$' !in rep[1..] by {
        assert forall k :: 0 <= k < |rep[1..]| ==> rep[1..][k] == rep[k + 1];
      }
      [rep[0]] + Expand(rep[1..], matched, before, after)
  }

  /** The four dollar pairs, a lone trailing `$`, and a `$` before any other
      character (with a string pattern there are no capture groups, so `$1`
      stays as written). */
  lemma ExpandPatterns(matched: string, before: string, after: string)
    ensures Expand("$$", matched, before, after) == "$"
    ensures Expand("$&", matched, before, after) == matched
    ensures Expand("$`", matched, before, after) == before
    ensures Expand("$'", matched, before, after) == after
    ensures Expand("$", matched, before, after) == "$"
    ensures Expand("$1", matched, before, after) == "$1"
    ensures Expand("a$&b", matched, before, after) == "a" + matched + "b"
  {
    assert Expand("$$", matched, before, after) == "$" + Expand("", matched, before, after);
    assert Expand("$&", matched, before, after) == matched + Expand("", matched, before, after);
    assert Expand("$`", matched, before, after) == before + Expand("", matched, before, after);
    assert Expand("$'", matched, before, after) == after + Expand("", matched, before, after);
    assert "a$&b"[1..] == "$&b" && "$&b"[2..] == "b";
  }

  /** The replacement text for the first occurrence of `pat` at `i`. */
  function Replacement(s: string, pat: string, rep: string, i: nat): string
    requires i + |pat| <= |s|
  {
    Expand(rep, pat, s[..i], s[i + |pat|..])
  }

  /** JavaScript's `s.replace(pat, rep)` for a string pattern: only the first
      occurrence is replaced; without one, `s` is returned unchanged. */
  function ReplaceFirst(s: string, pat: string, rep: string): (r: string)
    ensures IndexOf(s, pat).None? ==> r == s
    ensures IndexOf(s, pat).Some? ==>
      var i := IndexOf(s, pat).value;
      var e := Replacement(s, pat, rep, i);
      && |r| == |s| - |pat| + |e|
      && r[..i] == s[..i]
      && r[i..i + |e|] == e
      && r[i + |e|..] == s[i + |pat|..]
  {
    match IndexOf(s, pat)
    case None => s
    case Some(i) => s[..i] + Replacement(s, pat, rep, i) + s[i + |pat|..]
  }

  /** The placeholder a parameter named `key` fills. */
  function Placeholder(key: string): (p: string)
    ensures |p| == |key| + 1 && p[0] == ':'
  {
    ":" + key
  }

  /** One iteration of the `forEach`: replace the first `:key` when the url has one. */
  function Substitute(url: string, param: (string, string)): (r: string)
    ensures r != url ==> Contains(url, Placeholder(param.0))
  {
    if Contains(url, Placeholder(param.0)) then ReplaceFirst(url, Placeholder(param.0), param.1) else url
  }

  /** Substitutes the parameters in entry order, each into the previous result. */
  function SubstituteAll(url: string, params: seq<(string, string)>): (r: string)
    ensures ':' !in url ==> r == url
    decreases |params|
  {
    if |params| == 0 then url
    else
      assert ':' !in url ==> Substitute(url, params[0]) == url by {
        if ':' !in url && Contains(url, Placeholder(params[0].0)) {
          PlaceholderNeedsColon(url, params[0].0);
        }
      }
      SubstituteAll(Substitute(url, params[0]), params[1..])
  }

  /** `buildUrl(path, params)`; `params` lists `Object.entries` of the record,
      values already converted by `String`, and is absent when no record is given. */
  function BuildUrl(path: string, params: Option<seq<(string, string)>>): (url: string)
    ensures params.None? || params == Some([]) ==> url == path
    ensures ':' !in path ==> url == path
  {
    match params
    case None => path
    case Some(ps) => SubstituteAll(path, ps)
  }

  /** Substitution is a left fold: the parameters after a split point act on
      the result of those before it. */
  lemma {:induction false} SubstitutionsCompose(url: string, ps: seq<(string, string)>, qs: seq<(string, string)>)
    ensures SubstituteAll(url, ps + qs) == SubstituteAll(SubstituteAll(url, ps), qs)
    decreases |ps|
  {
    if |ps| == 0 {
      assert ps + qs == qs;
    } else {
      assert (ps + qs)[0] == ps[0];
      assert (ps + qs)[1..] == ps[1..] + qs;
      SubstitutionsCompose(Substitute(url, ps[0]), ps[1..], qs);
    }
  }

  /** The last parameter is substituted into the result of all the others. */
  lemma LastParameterActsLast(path: string, ps: seq<(string, string)>, p: (string, string))
    ensures BuildUrl(path, Some(ps + [p])) == Substitute(BuildUrl(path, Some(ps)), p)
  {
    SubstitutionsCompose(path, ps, [p]);
    assert SubstituteAll(SubstituteAll(path, ps), [p]) == SubstituteAll(Substitute(SubstituteAll(path, ps), p), []);
  }

  /** A url containing some placeholder contains a colon. */
  lemma PlaceholderNeedsColon(url: string, key: string)
    requires Contains(url, Placeholder(key))
    ensures ':' in url
  {
  }

  /** With a value free of `$`, a performed substitution writes the value
      literally and changes the length by `|value| - |key| - 1`. */
  lemma SubstitutionLength(url: string, key: string, value: string)
    requires '$' !in value && Contains(url, Placeholder(key))
    ensures var i := IndexOf(url, Placeholder(key)).value;
      Substitute(url, (key, value)) == url[..i] + value + url[i + |key| + 1..]
    ensures |Substitute(url, (key, value))| == |url| + |value| - |key| - 1
  {
    var pat := Placeholder(key);
    var i := IndexOf(url, pat).value;
  }

  /** Only the first placeholder is replaced: every later, non-overlapping
      occurrence survives, shifted by the change in length. */
  lemma LaterOccurrencesSurvive(s: string, pat: string, rep: string, j: nat)
    requires IndexOf(s, pat).Some?
    requires IndexOf(s, pat).value + |pat| <= j && OccursAt(s, pat, j)
    ensures var i := IndexOf(s, pat).value;
      OccursAt(ReplaceFirst(s, pat, rep), pat, j - |pat| + |Replacement(s, pat, rep, i)|)
  {
  }

  /** Parameter order matters. On the path `:ab`, substituting `a` first
      leaves `xb`, where `:ab` no longer occurs. */
  lemma OrderMattersShortKeyFirst()
    ensures BuildUrl(":ab", Some([("a", "x"), ("ab", "y")])) == "xb"
  {
    assert OccursAt(":ab", ":a", 0);
    assert IndexOf(":ab", ":a") == Some(0);
    assert Replacement(":ab", ":a", "x", 0) == "x";
    assert ReplaceFirst(":ab", ":a", "x") == ":ab"[..0] + "x" + ":ab"[2..];
    assert ":ab"[2..] == "b";
    assert Placeholder("a") == ":a" && Placeholder("ab") == ":ab";
    assert Contains(":ab", ":a");
    assert Substitute(":ab", ("a", "x")) == "xb";
    assert !Contains("xb", ":ab");
    assert Substitute("xb", ("ab", "y")) == "xb";
    assert SubstituteAll("xb", [("ab", "y")]) == SubstituteAll("xb", []);
  }

  /** On the same path, substituting `ab` first gives `y`, where `:a` no
      longer occurs. */
  lemma OrderMattersLongKeyFirst()
    ensures BuildUrl(":ab", Some([("ab", "y"), ("a", "x")])) == "y"
  {
    assert OccursAt(":ab", ":ab", 0);
    assert IndexOf(":ab", ":ab") == Some(0);
    assert Replacement(":ab", ":ab", "y", 0) == "y";
    assert ReplaceFirst(":ab", ":ab", "y") == ":ab"[..0] + "y" + ":ab"[3..];
    assert Placeholder("a") == ":a" && Placeholder("ab") == ":ab";
    assert Contains(":ab", ":ab");
    assert Substitute(":ab", ("ab", "y")) == "y";
    assert !Contains("y", ":a");
    assert Substitute("y", ("a", "x")) == "y";
    assert SubstituteAll("y", [("a", "x")]) == SubstituteAll("y", []);
  }
}
