/** Redaction of configured secrets: every form a secret may be printed in is
    replaced by a marker, one form after the other. */
module Redact {
  import opened Types

  const MARKER := "[redacted]"

  predicate StartsWith(t: string, f: string) {
    |f| <= |t| && t[..|f|] == f
  }

  predicate Contains(t: string, f: string) {
    exists i :: 0 <= i <= |t| && StartsWith(t[i..], f)
  }

  /** `t.split(f).join(MARKER)`. */
  function ReplaceAll(t: string, f: string): string
    requires f != ""
    decreases |t|
  {
    if |t| < |f| then t
    else if t[..|f|] == f then MARKER + ReplaceAll(t[|f|..], f)
    else [t[0]] + ReplaceAll(t[1..], f)
  }

  predicate AllForms(forms: seq<string>) {
    forall j :: 0 <= j < |forms| ==> forms[j] != ""
  }

  function RedactAll(t: string, forms: seq<string>): string
    requires AllForms(forms)
  {
    if forms == [] then t
    else ReplaceAll(RedactAll(t, forms[..|forms| - 1]), forms[|forms| - 1])
  }

  method RedactSecrets(text: string, forms: seq<string>) returns (t: string)
    requires AllForms(forms)
    ensures t == RedactAll(text, forms)
  {
    t := text;
    for j := 0 to |forms|
      invariant t == RedactAll(text, forms[..j])
    {
      assert forms[..j + 1][..j] == forms[..j];
      t := ReplaceAll(t, forms[j]);
    }
    assert forms[..|forms|] == forms;
  }

  /** The forms are replaced first to last. */
  lemma {:induction false} FirstFormFirst(t: string, f: string, rest: seq<string>)
    requires f != "" && AllForms(rest)
    ensures AllForms([f] + rest) && RedactAll(t, [f] + rest) == RedactAll(ReplaceAll(t, f), rest)
  {
    var forms := [f] + rest;
    assert forall j :: 0 < j < |forms| ==> forms[j] == rest[j - 1];
    if rest == [] {
      assert forms[..0] == [];
    } else {
      assert forms[..|forms| - 1] == [f] + rest[..|rest| - 1];
      FirstFormFirst(t, f, rest[..|rest| - 1]);
    }
  }

  // ---- replacing is splitting and joining --------------------------------------------

  /** `t.split(f)`: what is before, between and after the places of `f`. */
  function SplitOn(t: string, f: string): (parts: seq<string>)
    requires f != ""
    ensures parts != []
    decreases |t|
  {
    if |t| < |f| then [t]
    else if t[..|f|] == f then [""] + SplitOn(t[|f|..], f)
    else
      var rest := SplitOn(t[1..], f);
      [[t[0]] + rest[0]] + rest[1..]
  }

  function JoinWith(parts: seq<string>, f: string): string
    requires parts != []
  {
    if |parts| == 1 then parts[0] else parts[0] + f + JoinWith(parts[1..], f)
  }

  lemma JoinLonger(c: char, parts: seq<string>, f: string)
    requires parts != []
    ensures JoinWith([[c] + parts[0]] + parts[1..], f) == [c] + JoinWith(parts, f)
  {
    if |parts| > 1 { assert ([[c] + parts[0]] + parts[1..])[1..] == parts[1..]; }
  }

  lemma JoinAfter(parts: seq<string>, f: string)
    requires parts != []
    ensures JoinWith([""] + parts, f) == f + JoinWith(parts, f)
  {
    assert ([""] + parts)[1..] == parts;
    assert "" + f == f;
  }

  /** Joined again with the form the parts are the text, and with the marker they are
      the redacted text; the form is in none of them. */
  lemma {:induction false} ReplaceIsSplitAndJoin(t: string, f: string)
    requires f != ""
    ensures JoinWith(SplitOn(t, f), f) == t && JoinWith(SplitOn(t, f), MARKER) == ReplaceAll(t, f)
    decreases |t|
  {
    if |t| < |f| {
    } else if t[..|f|] == f {
      ReplaceIsSplitAndJoin(t[|f|..], f);
      JoinAfter(SplitOn(t[|f|..], f), f);
      JoinAfter(SplitOn(t[|f|..], f), MARKER);
    } else {
      ReplaceIsSplitAndJoin(t[1..], f);
      JoinLonger(t[0], SplitOn(t[1..], f), f);
      JoinLonger(t[0], SplitOn(t[1..], f), MARKER);
    }
  }

  lemma {:induction false} PartsHoldNone(t: string, f: string, k: nat)
    requires f != "" && k < |SplitOn(t, f)|
    ensures !Contains(SplitOn(t, f)[k], f)
    decreases |t|
  {
    var parts := SplitOn(t, f);
    if |t| < |f| {
      assert t[..|t|] == t;
      ShorterHoldsNone(parts[k], f);
    } else if t[..|f|] == f {
      if k == 0 { ShorterHoldsNone("", f); } else { PartsHoldNone(t[|f|..], f, k - 1); }
    } else {
      var rest := SplitOn(t[1..], f);
      PartsHoldNone(t[1..], f, k);
      FirstPartStarts(t[1..], f);
      assert t == [t[0]] + t[1..];
      assert t[..|parts[0]|] == [t[0]] + t[1..][..|rest[0]|];
      if k == 0 { LongerHoldsNone(t, rest[0], f); }
    }
  }

  lemma ShorterHoldsNone(part: string, f: string)
    requires |part| < |f|
    ensures !Contains(part, f)
  {
  }

  lemma FirstPartStarts(t: string, f: string)
    requires f != ""
    ensures StartsWith(t, SplitOn(t, f)[0])
    decreases |t|
  {
    if |t| < |f| {
      assert t[..|t|] == t;
    } else if t[..|f|] != f {
      FirstPartStarts(t[1..], f);
      assert t[..1 + |SplitOn(t[1..], f)[0]|] == [t[0]] + t[1..][..|SplitOn(t[1..], f)[0]|];
    }
  }

  lemma LongerHoldsNone(t: string, rest: string, f: string)
    requires f != "" && t != "" && !StartsWith(t, f) && StartsWith(t[1..], rest) && !Contains(rest, f)
    ensures !Contains([t[0]] + rest, f)
  {
    var whole := [t[0]] + rest;
    forall i | 0 <= i <= |whole| ensures !StartsWith(whole[i..], f) {
      if i > 0 {
        assert whole[i..] == rest[i - 1..];
      } else {
        assert whole[0..] == whole && whole == t[..|whole|];
        assert |f| <= |whole| ==> whole[..|f|] == t[..|f|];
      }
    }
  }

  // ---- no form survives ------------------------------------------------------------

  /** Laid over the form with its first letter at place `d` of the form, the marker
      agrees with it wherever the two overlap. */
  predicate Agrees(f: string, d: int) {
    forall p :: 0 <= p < |f| && d <= p < d + |MARKER| ==> f[p] == MARKER[p - d]
  }

  /** The form contains the marker, is contained in it, or shares a border with it. */
  predicate Clashes(f: string) {
    exists d :: -|MARKER| < d < |f| && Agrees(f, d)
  }

  /** What the replaced text starts with, the text started with. */
  lemma {:induction false} StartSurvives(t: string, f: string, g: string, o: nat)
    requires f != "" && !Clashes(g) && o <= |g| && StartsWith(ReplaceAll(t, f), g[o..])
    ensures StartsWith(t, g[o..])
    decreases |t|
  {
    if o < |g| && |f| <= |t| {
      var r := ReplaceAll(t, f);
      if t[..|f|] == f {
        forall p | 0 <= p < |g| && o <= p < o + |MARKER| ensures g[p] == MARKER[p - o] {
          assert r[p - o] == MARKER[p - o] && r[..|g[o..]|][p - o] == g[o..][p - o];
        }
        assert Agrees(g, o);
        assert false;
      } else {
        assert r[1..] == ReplaceAll(t[1..], f);
        assert r[..|g| - o][0] == g[o..][0] && r[1..][..|g| - o - 1] == r[..|g| - o][1..] == g[o..][1..] == g[o + 1..];
        StartSurvives(t[1..], f, g, o + 1);
        assert t == [t[0]] + t[1..] && g[o..] == [g[o]] + g[o + 1..];
      }
    }
  }

  lemma TailContains(t: string, k: nat, g: string)
    requires k <= |t| && Contains(t[k..], g)
    ensures Contains(t, g)
  {
    var i :| 0 <= i <= |t[k..]| && StartsWith(t[k..][i..], g);
    assert t[k..][i..] == t[k + i..];
  }

  /** A form found inside a marker and what follows it clashes. */
  lemma MarkerApart(rest: string, g: string, i: nat)
    requires g != "" && i < |MARKER| && StartsWith((MARKER + rest)[i..], g)
    ensures Clashes(g)
  {
    var r := (MARKER + rest)[i..];
    var d: int := 0 - i;
    forall p: int | 0 <= p < |g| && d <= p < d + |MARKER| ensures g[p] == MARKER[p - d] {
      assert r[..|g|][p] == g[p] && r[p] == MARKER[p + i];
    }
    assert Agrees(g, d);
  }

  /** Replacing one form brings no other form about, and leaves none of its own. */
  lemma {:induction false} NothingNew(t: string, f: string, g: string)
    requires f != "" && g != "" && !Clashes(g) && Contains(ReplaceAll(t, f), g)
    ensures Contains(t, g) && g != f
    decreases |t|
  {
    var r := ReplaceAll(t, f);
    var i :| 0 <= i <= |r| && StartsWith(r[i..], g);
    if |t| < |f| {
      assert |r[i..]| <= |t|;
    } else if t[..|f|] == f {
      if i < |MARKER| {
        MarkerApart(ReplaceAll(t[|f|..], f), g, i);
      } else {
        assert r[i..] == ReplaceAll(t[|f|..], f)[i - |MARKER|..];
        NothingNew(t[|f|..], f, g);
        TailContains(t, |f|, g);
      }
    } else if i == 0 {
      assert r[0..] == r && g[0..] == g;
      StartSurvives(t, f, g, 0);
      assert t[0..] == t;
    } else {
      assert r[i..] == ReplaceAll(t[1..], f)[i - 1..];
      NothingNew(t[1..], f, g);
      TailContains(t, 1, g);
    }
  }

  /** Where no form clashes with the marker, the redacted text holds none of them,
      in whatever order they were replaced. */
  lemma {:induction false} NoFormSurvives(t: string, forms: seq<string>, j: nat)
    requires AllForms(forms) && j < |forms| && !Clashes(forms[j])
    ensures !Contains(RedactAll(t, forms), forms[j])
  {
    var n := |forms| - 1;
    var before := RedactAll(t, forms[..n]);
    if Contains(RedactAll(t, forms), forms[j]) {
      NothingNew(before, forms[n], forms[j]);
      assert j < n && forms[..n][j] == forms[j];
      NoFormSurvives(t, forms[..n], j);
    }
  }

  // ---- which secrets are safe -----------------------------------------------------------

  predicate Bracketless(f: string) { '[' !in f && ']' !in f }

  /** A key of nine characters or more without brackets (hex, base58, a credits
      key), and a byte array in brackets, never clash with the marker. */
  predicate KeyShaped(f: string) {
    || (|f| >= 9 && Bracketless(f))
    || (|f| >= 3 && f[0] == '[' && f[|f| - 1] == ']' && f[1] != 'r' && Bracketless(f[1..|f| - 1]))
  }

  lemma KeysNeverClash(f: string)
    requires KeyShaped(f)
    ensures !Clashes(f)
  {
    forall d | -|MARKER| < d < |f| ensures !Agrees(f, d) {
      var last := d + |MARKER| - 1;
      if |f| >= 9 && Bracketless(f) {
        assert MARKER[0] == '[' && MARKER[9] == ']';
        if 0 <= d { assert f[d] in f; } else if last < |f| { assert f[last] in f; }
      } else {
        assert forall p :: 0 < p < |f| - 1 ==> f[p] in f[1..|f| - 1];
        assert MARKER[0] == '[' && MARKER[1] == 'r' && MARKER[9] == ']';
        if 0 <= d { assert f[d] != '[' || d == 0; } else if last < |f| { assert f[last] != ']' || last == |f| - 1; }
        if d < 0 && last >= |f| - 1 { InsideMarker(f, d); }
      }
    }
  }

  lemma InsideMarker(f: string, d: int)
    requires |f| >= 3 && f[0] == '[' && -|MARKER| < d < 0
    ensures !Agrees(f, d)
  {
    assert MARKER[0 - d] != '[';
  }

  lemma {:induction false} Untouched(t: string, f: string)
    requires f != "" && !Contains(t, f)
    ensures ReplaceAll(t, f) == t
    decreases |t|
  {
    if |f| <= |t| {
      assert t[0..] == t;
      if Contains(t[1..], f) { TailContains(t, 1, f); }
      Untouched(t[1..], f);
    }
  }

  lemma ContainsWithin(t: string, m: string, f: string)
    requires Contains(t, m) && Contains(m, f)
    ensures Contains(t, f)
  {
    var i :| 0 <= i <= |t| && StartsWith(t[i..], m);
    var k :| 0 <= k <= |m| && StartsWith(m[k..], f);
    var u := t[i..];
    assert u[..|m|] == m && u[k..][..|f|] == m[k..][..|f|] == f;
    assert t[i + k..] == u[k..];
  }

  lemma {:induction false} MarkerAppears(t: string, f: string)
    requires f != "" && Contains(t, f)
    ensures Contains(ReplaceAll(t, f), MARKER)
    decreases |t|
  {
    var i :| 0 <= i <= |t| && StartsWith(t[i..], f);
    var r := ReplaceAll(t, f);
    if t[..|f|] == f {
      assert r[0..] == r && StartsWith(r[0..], MARKER);
    } else {
      assert t[0..] == t;
      assert t[1..][i - 1..] == t[i..];
      MarkerAppears(t[1..], f);
      assert r[1..] == ReplaceAll(t[1..], f);
      TailContains(r, 1, MARKER);
    }
  }

  predicate HoldsAny(t: string, forms: seq<string>) {
    exists k :: 0 <= k < |forms| && Contains(t, forms[k])
  }

  /** A text that holds any form comes out with the marker in it, whatever the forms
      are and in whatever order they are replaced; any other text comes out as it
      went in. */
  lemma {:induction false} MarkerExactly(t: string, forms: seq<string>)
    requires AllForms(forms)
    ensures if HoldsAny(t, forms) then Contains(RedactAll(t, forms), MARKER) else RedactAll(t, forms) == t
  {
    if forms == [] {
    } else {
      var front, f := forms[..|forms| - 1], forms[|forms| - 1];
      var before := RedactAll(t, front);
      MarkerExactly(t, front);
      if Contains(before, f) { MarkerAppears(before, f); } else { Untouched(before, f); }
      assert forall k :: 0 <= k < |front| ==> front[k] == forms[k];
      if HoldsAny(t, front) {
        var k :| 0 <= k < |front| && Contains(t, front[k]);
        assert Contains(t, forms[k]);
      }
    }
  }

  /** A secret that is part of the marker is never redacted: it is in the result
      exactly when any configured form was in the text, itself or another. */
  lemma PartOfMarkerStays(t: string, forms: seq<string>, j: nat)
    requires AllForms(forms) && j < |forms| && Contains(MARKER, forms[j])
    ensures Contains(RedactAll(t, forms), forms[j]) <==> HoldsAny(t, forms)
  {
    MarkerExactly(t, forms);
    if HoldsAny(t, forms) { ContainsWithin(RedactAll(t, forms), MARKER, forms[j]); }
  }

  /** Where every form is apart from the marker or part of it, the result holds no
      form exactly when none is part of it, or the text held none to begin with. */
  lemma RedactedExactly(t: string, forms: seq<string>)
    requires AllForms(forms)
    requires forall j :: 0 <= j < |forms| ==> !Clashes(forms[j]) || Contains(MARKER, forms[j])
    ensures !HoldsAny(RedactAll(t, forms), forms) <==> !HoldsAny(MARKER, forms) || !HoldsAny(t, forms)
  {
    forall j | 0 <= j < |forms|
      ensures Contains(RedactAll(t, forms), forms[j]) <==> Contains(MARKER, forms[j]) && HoldsAny(t, forms)
    {
      if Contains(MARKER, forms[j]) { PartOfMarkerStays(t, forms, j); } else { NoFormSurvives(t, forms, j); }
    }
    if HoldsAny(MARKER, forms) && HoldsAny(t, forms) {
      var j :| 0 <= j < |forms| && Contains(MARKER, forms[j]);
      assert Contains(RedactAll(t, forms), forms[j]);
    }
  }

  /** Redacting one key can so put another one, that was not there, into the text. */
  lemma RedactionRevealsPartOfMarker()
    ensures var forms := ["secretkey9", "redacted"];
            && AllForms(forms) && !Contains("secretkey9", "redacted")
            && Contains(RedactAll("secretkey9", forms), "redacted")
  {
    var forms, t := ["secretkey9", "redacted"], "secretkey9";
    forall i | 0 <= i <= |t| ensures !StartsWith(t[i..], "redacted") {
      assert i <= 2 ==> t[i..][..8][0] == t[i] != "redacted"[0];
    }
    assert t[0..] == t && StartsWith(t[0..], forms[0]);
    assert MARKER[1..][..8] == "redacted" && StartsWith(MARKER[1..], forms[1]);
    PartOfMarkerStays(t, forms, 1);
  }

  lemma WithoutItsFirst(t: string, f: string)
    requires f != "" && f[0] !in t
    ensures !Contains(t, f)
  {
  }

  lemma ShortRestStays(f: string, rest: string)
    requires f != "" && |rest| < |f|
    ensures ReplaceAll(f + rest, f) == MARKER + rest
  {
    assert (f + rest)[..|f|] == f && (f + rest)[|f|..] == rest;
  }

  /** So can a form that shares a border with the marker: here the end of the marker
      and what follows the replaced key. */
  lemma RedactionRevealsBorder()
    ensures var forms := ["]abcdefg", "key12345"];
            && AllForms(forms) && !Contains("key12345" + "abcdefg", forms[0])
            && Contains(RedactAll("key12345" + "abcdefg", forms), forms[0])
  {
    var border, key, rest := "]abcdefg", "key12345", "abcdefg";
    var t := key + rest;
    WithoutItsFirst(t, border);
    Untouched(t, border);
    ShortRestStays(key, rest);
    assert [border, key][..1] == [border] && [border][..0] == [];
    assert RedactAll(t, [border]) == t;
    var r := MARKER + rest;
    assert r[9..] == border && StartsWith(r[9..], border);
  }

  // ---- whole values ------------------------------------------------------------------------

  datatype Json = Text(s: string) | Plain | Array(items: seq<Json>) | Object(members: seq<(string, Json)>)

  const MAX_DEPTH := 64

  function RedactDeep(v: Json, forms: seq<string>, depth: nat): Json
    requires AllForms(forms)
  {
    if forms == [] then v
    else
      match v
      case Text(s) => Text(RedactAll(s, forms))
      case Plain => v
      case Array(items) =>
        if depth > MAX_DEPTH then v
        else Array(seq(|items|, i requires 0 <= i < |items| => RedactDeep(items[i], forms, depth + 1)))
      case Object(members) =>
        if depth > MAX_DEPTH then v
        else Object(seq(|members|, i requires 0 <= i < |members| =>
                        (members[i].0, RedactDeep(members[i].1, forms, depth + 1))))
  }

  /** The value at a path of child positions. */
  function ValueAt(v: Json, path: seq<nat>): Option<Json> {
    if path == [] then Some(v)
    else
      match v
      case Array(items) => if path[0] < |items| then ValueAt(items[path[0]], path[1..]) else None
      case Object(members) => if path[0] < |members| then ValueAt(members[path[0]].1, path[1..]) else None
      case _ => None
  }

  /** Redaction keeps every path, and redacts the value at each path of up to 65
      steps; what lies deeper is left as it is. */
  lemma {:induction false} RedactsEveryPath(v: Json, forms: seq<string>, depth: nat, path: seq<nat>)
    requires AllForms(forms) && depth <= MAX_DEPTH + 1
    ensures ValueAt(RedactDeep(v, forms, depth), path)
            == match ValueAt(v, path)
               case None => None
               case Some(sub) => Some(if depth + |path| <= MAX_DEPTH + 1 then RedactDeep(sub, forms, depth + |path|)
                                      else sub)
    decreases path
  {
    if path != [] && forms != [] && depth <= MAX_DEPTH {
      match v
      case Array(items) => if path[0] < |items| { RedactsEveryPath(items[path[0]], forms, depth + 1, path[1..]); }
      case Object(members) =>
        if path[0] < |members| { RedactsEveryPath(members[path[0]].1, forms, depth + 1, path[1..]); }
      case _ =>
    }
  }

  /** What redaction leaves at each place of a value: within the depth limit a string
      is the redacted string, and deeper anything is what it was; what is no string
      stays what it is, of the same size and under the same keys. */
  lemma RedactedAt(v: Json, forms: seq<string>, path: seq<nat>)
    requires AllForms(forms)
    ensures var was, now := ValueAt(v, path), ValueAt(RedactDeep(v, forms, 0), path);
            && (was.None? <==> now.None?)
            && (was.Some? && |path| > MAX_DEPTH + 1 ==> now == was)
            && (was.Some? && was.value.Text? && |path| <= MAX_DEPTH + 1 ==>
                  now == Some(Text(RedactAll(was.value.s, forms))))
            && (was == Some(Plain) ==> now == was)
            && (was.Some? && was.value.Array? ==> now.value.Array? && |now.value.items| == |was.value.items|)
            && (was.Some? && was.value.Object? ==>
                  && now.value.Object? && |now.value.members| == |was.value.members|
                  && forall k :: 0 <= k < |was.value.members| ==> now.value.members[k].0 == was.value.members[k].0)
  {
    RedactsEveryPath(v, forms, 0, path);
  }

  /** So a string that holds no form comes out as it was. */
  lemma InnocentStringStays(v: Json, forms: seq<string>, path: seq<nat>, s: string)
    requires AllForms(forms) && ValueAt(v, path) == Some(Text(s)) && !HoldsAny(s, forms)
    ensures ValueAt(RedactDeep(v, forms, 0), path) == Some(Text(s))
  {
    RedactedAt(v, forms, path);
    MarkerExactly(s, forms);
  }

  /** So no string value within the depth limit holds a form that does not clash
      with the marker, and in particular no key-shaped one. */
  lemma NoSecretInValue(v: Json, forms: seq<string>, path: seq<nat>, s: string, j: nat)
    requires AllForms(forms) && j < |forms| && !Clashes(forms[j]) && |path| <= MAX_DEPTH + 1
    requires ValueAt(RedactDeep(v, forms, 0), path) == Some(Text(s))
    ensures !Contains(s, forms[j])
  {
    RedactsEveryPath(v, forms, 0, path);
    NoFormSurvives(ValueAt(v, path).value.s, forms, j);
  }
}
