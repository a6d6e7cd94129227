/**
 * Prompt rendering: `render_prompt(template, user_input)` is Python's
 * `template.replace("{{input}}", user_input)`.
 *
 * `Render` follows `str.replace` as it scans: left to right, replacing each
 * occurrence and resuming after it. `Split`, `Join` and `Count` are an
 * independent description of the same thing (`str.split`, `str.join`,
 * `str.count`), and the lemmas below tie the two together.
 */
module Templates {
  import opened Wrappers
  import opened Strings

  /** The placeholder token, 9 characters. */
  const Placeholder: string := "{{input}}"

  /** Two occurrences of the placeholder can never overlap. */
  lemma PlaceholderNoBorder()
    ensures NoBorder(Placeholder)
  {
    var p := Placeholder;
    forall d | 0 < d < |p|
      ensures !SelfOverlap(p, d)
    {
      var j := if d == 1 then 1 else 0;
      assert p[d..][j] == p[d + j] != p[j] == p[..|p| - d][j];
    }
  }

  /** `template.replace("{{input}}", input)`. */
  function Render(template: string, input: string): string
    decreases |template|
  {
    if template == [] then []
    else if MatchAt(template, Placeholder, 0) then input + Render(template[|Placeholder|..], input)
    else [template[0]] + Render(template[1..], input)
  }

  /** `s.split("{{input}}")`: the pieces between non-overlapping occurrences, leftmost first. */
  function Split(s: string): (pieces: seq<string>)
    ensures |pieces| >= 1
    decreases |s|
  {
    match IndexOf(s, Placeholder)
    case None => [s]
    case Some(i) => [s[..i]] + Split(s[i + |Placeholder|..])
  }

  /** `sep.join(pieces)`. */
  function Join(pieces: seq<string>, sep: string): string {
    if pieces == [] then []
    else if |pieces| == 1 then pieces[0]
    else pieces[0] + sep + Join(pieces[1..], sep)
  }

  /** `s.count("{{input}}")`: the number of non-overlapping occurrences. */
  function Count(s: string): nat {
    |Split(s)| - 1
  }

  /** A template without the placeholder renders to itself, whatever the input. */
  lemma {:induction false} RenderNoPlaceholder(template: string, input: string)
    requires !Contains(template, Placeholder)
    ensures Render(template, input) == template
    decreases |template|
  {
    if template != [] {
      MatchAtDrop(template, Placeholder, 1);
      RenderNoPlaceholder(template[1..], input);
    }
  }

  /** Characters before the first occurrence are copied one by one. */
  lemma {:induction false} RenderCopiesPrefix(pre: string, rest: string, input: string)
    requires forall k :: 0 <= k < |pre| ==> !MatchAt(pre + rest, Placeholder, k)
    ensures Render(pre + rest, input) == pre + Render(rest, input)
    decreases |pre|
  {
    if pre != [] {
      var s := pre + rest;
      assert !MatchAt(s, Placeholder, 0);
      assert s[1..] == pre[1..] + rest;
      MatchAtDrop(s, Placeholder, 1);
      RenderCopiesPrefix(pre[1..], rest, input);
      calc {
        Render(s, input);
        [s[0]] + Render(s[1..], input);
        [pre[0]] + (pre[1..] + Render(rest, input));
        { assert pre == [pre[0]] + pre[1..]; }
        pre + Render(rest, input);
      }
    } else {
      assert pre + rest == rest;
    }
  }

  /** Rendering replaces the first occurrence and carries on after it. */
  lemma RenderAtFirst(template: string, input: string, i: nat)
    requires IndexOf(template, Placeholder) == Some(i)
    ensures Render(template, input)
         == template[..i] + input + Render(template[i + |Placeholder|..], input)
  {
    assert template == template[..i] + template[i..];
    RenderCopiesPrefix(template[..i], template[i..], input);
    assert MatchAt(template[i..], Placeholder, 0);
    assert template[i..][|Placeholder|..] == template[i + |Placeholder|..];
  }

  /** `str.replace` is split-then-join: `sep.join(s.split(old))` with `sep` the input. */
  lemma {:induction false} RenderIsSplitJoin(template: string, input: string)
    ensures Render(template, input) == Join(Split(template), input)
    decreases |template|
  {
    match IndexOf(template, Placeholder)
    case None =>
      RenderNoPlaceholder(template, input);
    case Some(i) =>
      var rest := template[i + |Placeholder|..];
      RenderAtFirst(template, input, i);
      RenderIsSplitJoin(rest, input);
      assert Split(template) == [template[..i]] + Split(rest);
  }

  /** Each occurrence trades 9 characters for the input: |r| == |t| + k * (|x| - 9). */
  lemma {:induction false} RenderLength(template: string, input: string)
    ensures |Render(template, input)|
         == |template| + Count(template) * (|input| - |Placeholder|)
    decreases |template|
  {
    match IndexOf(template, Placeholder)
    case None =>
      RenderNoPlaceholder(template, input);
    case Some(i) =>
      var rest := template[i + |Placeholder|..];
      RenderAtFirst(template, input, i);
      RenderLength(rest, input);
      assert Count(template) == 1 + Count(rest);
      var c, d := Count(rest), |input| - |Placeholder|;
      assert |rest| == |template| - i - |Placeholder|;
      assert |Render(template, input)| == i + |input| + |Render(rest, input)|;
      assert |Render(rest, input)| == |rest| + c * d;
      Distribute(c, d);
  }

  lemma Distribute(c: int, d: int)
    ensures (1 + c) * d == d + c * d
  {
  }

  /** Substituting the placeholder for itself changes nothing. */
  lemma {:induction false} RenderPlaceholderIdentity(template: string)
    ensures Render(template, Placeholder) == template
    decreases |template|
  {
    if template != [] {
      if MatchAt(template, Placeholder, 0) {
        RenderPlaceholderIdentity(template[|Placeholder|..]);
        assert template == template[..|Placeholder|] + template[|Placeholder|..];
      } else {
        RenderPlaceholderIdentity(template[1..]);
        assert template == [template[0]] + template[1..];
      }
    }
  }

  /** Splitting on the placeholder and joining with it again gives the template back. */
  lemma SplitJoinRoundTrip(template: string)
    ensures Join(Split(template), Placeholder) == template
  {
    RenderIsSplitJoin(template, Placeholder);
    RenderPlaceholderIdentity(template);
  }

  /** The pieces of a split contain no placeholder. */
  lemma {:induction false} SplitPiecesFree(template: string)
    ensures forall j :: 0 <= j < |Split(template)| ==> !Contains(Split(template)[j], Placeholder)
    decreases |template|
  {
    match IndexOf(template, Placeholder)
    case None =>
    case Some(i) =>
      var rest := template[i + |Placeholder|..];
      SplitPiecesFree(rest);
      assert Split(template) == [template[..i]] + Split(rest);
      forall k ensures !MatchAt(template[..i], Placeholder, k) {
        if 0 <= k && k + |Placeholder| <= i {
          assert template[..i][k..k + |Placeholder|] == template[k..k + |Placeholder|];
          assert !MatchAt(template, Placeholder, k);
        }
      }
  }

  /**
   * Rendering with the empty input deletes every placeholder: the result is
   * the pieces between them, in order, and is 9 characters shorter per
   * placeholder.
   */
  lemma EmptyInputDeletesPlaceholders(template: string)
    ensures Render(template, "") == Join(Split(template), "")
    ensures |Render(template, "")| == |template| - |Placeholder| * Count(template)
  {
    RenderIsSplitJoin(template, "");
    RenderLength(template, "");
    Shrink(|Render(template, "")|, |template|, Count(template), |Placeholder|);
  }

  lemma Shrink(r: int, t: int, c: int, n: int)
    requires r == t + c * (0 - n)
    ensures r == t - n * c
  {
  }

  /**
   * With exactly one placeholder, rendering puts the input in its place and
   * alters no other character.
   */
  lemma RenderSingle(pre: string, post: string, input: string)
    requires !Contains(pre, Placeholder) && !Contains(post, Placeholder)
    ensures Count(pre + Placeholder + post) == 1
    ensures Render(pre + Placeholder + post, input) == pre + input + post
  {
    var t := pre + Placeholder + post;
    PlaceholderNoBorder();
    FirstOccurrence(pre, Placeholder, post);
    assert t[..|pre|] == pre;
    assert t[|pre| + |Placeholder|..] == post;
    RenderAtFirst(t, input, |pre|);
    RenderNoPlaceholder(post, input);
    assert Split(t) == [pre] + Split(post) == [pre, post];
  }

  /** The worked example: "Hello {{input}}!" with "world" gives "Hello world!". */
  lemma HelloWorld(template: string, input: string)
    requires template == "Hello {{input}}!" && input == "world"
    ensures Render(template, input) == "Hello world!"
  {
    var pre, post := "Hello ", "!";
    assert !Contains(pre, Placeholder);
    assert !Contains(post, Placeholder);
    assert template == pre + Placeholder + post;
    RenderSingle(pre, post, input);
    HelloJoined();
  }

  lemma HelloJoined()
    ensures "Hello " + "world" + "!" == "Hello world!"
  {
  }
}
