/** Stripping white space, as Python does it, and texts that are put together from parts. */
module Strings {

  /** What Python's `strip` removes. */
  predicate IsPythonSpace(c: char) {
    || '\t' <= c <= '\r' || '\U{1C}' <= c <= ' ' || c == '\U{85}' || c == '\U{A0}'
    || c == '\U{1680}' || '\U{2000}' <= c <= '\U{200A}' || c == '\U{2028}' || c == '\U{2029}'
    || c == '\U{202F}' || c == '\U{205F}' || c == '\U{3000}'
  }

  function Strip(s: string): (r: string)
    ensures r != "" ==> !IsPythonSpace(r[0]) && !IsPythonSpace(r[|r| - 1])
    decreases |s|
  {
    if s == "" then s
    else if IsPythonSpace(s[0]) then Strip(s[1..])
    else if IsPythonSpace(s[|s| - 1]) then Strip(s[..|s| - 1])
    else s
  }

  ghost predicate AllSpace(s: string) {
    forall i :: 0 <= i < |s| ==> IsPythonSpace(s[i])
  }

  lemma {:induction false} StripLeft(before: string, rest: string)
    requires AllSpace(before)
    ensures Strip(before + rest) == Strip(rest)
  {
    if before == "" {
      assert before + rest == rest;
    } else {
      StripLeft(before[1..], rest);
      assert (before + rest)[0] == before[0] && (before + rest)[1..] == before[1..] + rest;
    }
  }

  lemma {:induction false} StripRight(core: string, after: string)
    requires AllSpace(after) && core != "" && !IsPythonSpace(core[0]) && !IsPythonSpace(core[|core| - 1])
    ensures Strip(core + after) == core
    decreases |after|
  {
    var s := core + after;
    if after == "" {
      assert s == core;
    } else {
      StripRight(core, after[..|after| - 1]);
      assert s[0] == core[0] && s[|s| - 1] == after[|after| - 1] && s[..|s| - 1] == core + after[..|after| - 1];
    }
  }

  /** White space around a text is taken off, and nothing else. */
  lemma StripExactly(before: string, core: string, after: string)
    requires AllSpace(before) && AllSpace(after)
    requires core != "" ==> !IsPythonSpace(core[0]) && !IsPythonSpace(core[|core| - 1])
    ensures Strip(before + (core + after)) == core
  {
    StripLeft(before, core + after);
    if core == "" {
      StripLeft(after, "");
      assert core + after == after + "";
    } else {
      StripRight(core, after);
    }
  }

  /** The text consists of the parts, in order, with the separator between neighbours. */
  ghost predicate Spells(text: string, parts: seq<string>, separator: string) {
    if parts == [] then text == ""
    else if |parts| == 1 then text == parts[0]
    else
      var head := parts[0] + separator;
      head <= text && Spells(text[|head|..], parts[1..], separator)
  }

  lemma {:induction false} SpellsMore(text: string, parts: seq<string>, separator: string, last: string)
    requires parts != [] && Spells(text, parts, separator)
    ensures Spells(text + separator + last, parts + [last], separator)
    decreases |parts|
  {
    var longer, more := text + separator + last, parts + [last];
    if |parts| == 1 {
      assert more[1..] == [last] && longer[|parts[0] + separator|..] == last;
    } else {
      var n := |parts[0] + separator|;
      SpellsMore(text[n..], parts[1..], separator, last);
      assert more[1..] == parts[1..] + [last] && longer[n..] == text[n..] + separator + last;
    }
  }

  lemma {:induction false} SpellsInFront(text: string, parts: seq<string>, separator: string, first: string)
    requires parts != [] && Spells(text, parts, separator)
    ensures Spells(first + separator + text, [first] + parts, separator)
  {
    var longer := first + separator + text;
    assert ([first] + parts)[1..] == parts && longer[|first + separator|..] == text;
  }
}
