/** native/spaces.c: two search paths are merged into one buffer. Paths are C strings: they hold no NUL. */
module PathMerge {
  import opened Text

  // ---- What a merge is ----

  /** A component that is not there yet goes to the end. */
  function Added(path: string, component: string): string {
    if component == "" || component in Split(path, ':') then path
    else if path == "" then component
    else path + ":" + component
  }

  function AddedAll(path: string, components: seq<string>): string
    decreases |components|
  {
    if components == [] then path else AddedAll(Added(path, components[0]), components[1..])
  }

  function Merged(preferred: string, preserved: string): string {
    AddedAll(preferred, Split(preserved, ':'))
  }

  /** The components that are neither empty nor known, each at its first occurrence. */
  function Fresh(known: seq<string>, components: seq<string>): seq<string>
    decreases |components|
  {
    if components == [] then []
    else
      var c := components[0];
      if c == "" || c in known then Fresh(known, components[1..])
      else [c] + Fresh(known + [c], components[1..])
  }

  // ---- The components of a merge ----

  lemma {:induction false} SplitColon(s: string, rest: string)
    ensures Split(s + ":" + rest, ':') == Split(s, ':') + Split(rest, ':')
  {
    var all := s + ":" + rest;
    if s == "" {
      assert all[1..] == rest && all[0] == ':';
    } else {
      assert all[1..] == s[1..] + ":" + rest && all[0] == s[0];
      SplitColon(s[1..], rest);
    }
  }

  lemma {:induction false} SplitPlain(s: string)
    requires ':' !in s
    ensures Split(s, ':') == [s]
  {
    if s != "" {
      assert s[0] in s;
      SplitPlain(s[1..]);
      assert [s[0]] + s[1..] == s;
    }
  }

  lemma AddedSplit(path: string, component: string)
    requires ':' !in component && component != "" && component !in Split(path, ':')
    ensures Split(Added(path, component), ':') == if path == "" then [component] else Split(path, ':') + [component]
  {
    SplitPlain(component);
    if path != "" {
      SplitColon(path, component);
    }
  }

  lemma {:induction false} FreshSame(known: seq<string>, other: seq<string>, components: seq<string>)
    requires forall c: string :: c != "" ==> (c in known <==> c in other)
    ensures Fresh(known, components) == Fresh(other, components)
    decreases |components|
  {
    if components != [] {
      var c := components[0];
      if c == "" || c in known {
        FreshSame(known, other, components[1..]);
      } else {
        FreshSame(known + [c], other + [c], components[1..]);
      }
    }
  }

  /** A merge is the preferred components followed by the fresh ones of the other path, and starts with the preferred
      path itself. */
  lemma {:induction false} AddedAllSplit(path: string, components: seq<string>)
    requires forall k :: 0 <= k < |components| ==> ':' !in components[k]
    ensures path <= AddedAll(path, components)
    ensures var added := Fresh(Split(path, ':'), components);
      Split(AddedAll(path, components), ':') ==
      if path == "" then if added == [] then [""] else added else Split(path, ':') + added
    decreases |components|
  {
    if components != [] {
      var c, rest := components[0], components[1..];
      var next := Added(path, c);
      AddedAllSplit(next, rest);
      if next != path {
        AddedSplit(path, c);
        if path == "" {
          SplitPlain("");
        }
        hide Split;
        FreshSame(Split(path, ':') + [c], Split(next, ':'), rest);
        Regrouped(Split(path, ':'), [c], Fresh(Split(next, ':'), rest));
      }
    }
  }

  function First(components: seq<string>, c: string): nat {
    if components == [] || components[0] == c then 0 else 1 + First(components[1..], c)
  }

  /** What is fresh: exactly the unknown non-empty components, each once, in the order of their first occurrence. */
  lemma {:induction false} FreshIs(known: seq<string>, components: seq<string>)
    ensures var added := Fresh(known, components);
      && (forall c :: c in added <==> c in components && c != "" && c !in known)
      && forall i, j :: 0 <= i < j < |added| ==> First(components, added[i]) < First(components, added[j])
    decreases |components|
  {
    if components != [] {
      var c, rest := components[0], components[1..];
      assert forall x :: x in components <==> x == c || x in rest;
      if c == "" || c in known {
        FreshIs(known, rest);
        var added := Fresh(known, rest);
        forall k | 0 <= k < |added| ensures First(components, added[k]) == 1 + First(rest, added[k]) {
          assert added[k] in added;
        }
      } else {
        FreshIs(known + [c], rest);
        var later := Fresh(known + [c], rest);
        var added := [c] + later;
        forall i, j | 0 <= i < j < |added| ensures First(components, added[i]) < First(components, added[j]) {
          assert added[j] == later[j - 1] && later[j - 1] in later && added[j] != c;
          if i > 0 {
            assert added[i] == later[i - 1] && later[i - 1] in later && added[i] != c;
          }
        }
      }
    }
  }

  /** The preferred path stays as it is in front; every missing component of the other follows once, in order; none is
      left out. */
  lemma MergeIsUnion(preferred: string, preserved: string)
    ensures var merged, first, second := Merged(preferred, preserved), Split(preferred, ':'), Split(preserved, ':');
      && preferred <= merged
      && (forall c :: c in Split(merged, ':') && c != "" <==> (c in first || c in second) && c != "")
      && (preferred != "" ==> Split(merged, ':') == first + Fresh(first, second))
      && forall i, j :: 0 <= i < j < |Fresh(first, second)| ==>
           First(second, Fresh(first, second)[i]) < First(second, Fresh(first, second)[j])
  {
    var first, second := Split(preferred, ':'), Split(preserved, ':');
    forall k | 0 <= k < |second| ensures ':' !in second[k] {
      assert second[k] in second;
    }
    AddedAllSplit(preferred, second);
    FreshIs(first, second);
    assert preferred == "" ==> first == [""];
  }

  // ---- In the buffer ----

  const NUL := '\0'

  /** strchr for a colon, or the end. */
  method FindColon(s: string, from: nat) returns (end: nat, found: bool)
    requires from <= |s|
    ensures from <= end <= |s| && ':' !in s[from..end] && found == (end < |s|) && (found ==> s[end] == ':')
  {
    end := from;
    while end < |s| && s[end] != ':'
      invariant from <= end <= |s| && ':' !in s[from..end]
    {
      assert s[from..end + 1] == s[from..end] + [s[end]];
      end := end + 1;
    }
    found := end < |s|;
  }

  /** Splitting goes on behind the next colon. */
  lemma SplitNext(s: string, from: nat, end: nat)
    requires from <= end <= |s| && ':' !in s[from..end] && (end < |s| ==> s[end] == ':')
    ensures Split(s[from..], ':') ==
            if end < |s| then [s[from..end]] + Split(s[end + 1..], ':') else [s[from..end]]
  {
    SplitPlain(s[from..end]);
    if end < |s| {
      SplitColon(s[from..end], s[end + 1..]);
      assert s[from..] == s[from..end] + ":" + s[end + 1..];
    } else {
      assert s[from..] == s[from..end];
    }
  }

  /** path_has_component, for a component that is not empty. */
  method PathHasComponent(path: string, component: string) returns (has: bool)
    requires component != ""
    ensures has == (component in Split(path, ':'))
  {
    var cursor := 0;
    assert path[0..] == path;
    while cursor < |path|
      invariant cursor <= |path|
      invariant component in Split(path, ':') <==> component in Split(path[cursor..], ':')
      decreases |path| - cursor
    {
      var end, found := FindColon(path, cursor);
      SplitNext(path, cursor, end);
      if path[cursor..end] == component {
        return true;
      }
      if !found {
        return false;
      }
      cursor := end + 1;
    }
    assert path[cursor..] == [];
    has := false;
  }

  method CopyInto(buffer: array<char>, at: nat, text: string)
    requires at + |text| < buffer.Length
    modifies buffer
    ensures buffer[..at] == old(buffer[..at]) && buffer[at..at + |text|] == text && buffer[at + |text|] == NUL
  {
    var k := 0;
    while k < |text|
      invariant 0 <= k <= |text|
      invariant buffer[..at] == old(buffer[..at]) && buffer[at..at + k] == text[..k]
    {
      buffer[at + k] := text[k];
      assert buffer[at..at + k + 1] == buffer[at..at + k] + [text[k]];
      k := k + 1;
    }
    buffer[at + |text|] := NUL;
  }

  /** merge_path_environment: every write stays within the two lengths and two bytes more. */
  method MergePath(preferred: string, preserved: string) returns (merged: array<char>, length: nat)
    ensures fresh(merged) && merged.Length == |preferred| + |preserved| + 2
    ensures length < merged.Length && merged[..length] == Merged(preferred, preserved) && merged[length] == NUL
  {
    merged := new char[|preferred| + |preserved| + 2](_ => NUL);
    CopyInto(merged, 0, preferred);
    length := |preferred|;
    assert merged[..length] == preferred;
    assert preserved[0..] == preserved;
    var cursor := 0;
    while cursor < |preserved|
      invariant cursor <= |preserved| && length <= |preferred| + cursor && merged[length] == NUL
      invariant Merged(preferred, preserved) == AddedAll(merged[..length], Split(preserved[cursor..], ':'))
      decreases |preserved| - cursor
    {
      var end, found := FindColon(preserved, cursor);
      SplitNext(preserved, cursor, end);
      length := AddComponent(merged, length, preserved[cursor..end]);
      if !found {
        return;
      }
      cursor := end + 1;
    }
    assert preserved[cursor..] == [] && Split([], ':') == [""];
  }

  method AddComponent(merged: array<char>, start: nat, component: string) returns (length: nat)
    requires start + |component| + 1 < merged.Length && merged[start] == NUL
    modifies merged
    ensures start <= length <= start + |component| + 1 && (component == "" ==> length == start)
    ensures merged[..length] == Added(old(merged[..start]), component) && merged[length] == NUL
  {
    length := start;
    if |component| == 0 {
      return;
    }
    var has := PathHasComponent(merged[..length], component);
    if has {
      return;
    }
    ghost var path := merged[..length];
    if length > 0 {
      merged[length] := ':';
      length := length + 1;
      assert merged[..length] == path + ":";
    }
    ghost var before := merged[..length];
    CopyInto(merged, length, component);
    assert merged[..length + |component|] == merged[..length] + merged[length..length + |component|];
    length := length + |component|;
  }

  /** The bound is tight: two components without a colon between them fill the buffer. */
  lemma BoundIsTight(preferred: string, preserved: string)
    requires preferred != "" && preserved != "" && ':' !in preserved && preserved !in Split(preferred, ':')
    ensures |Merged(preferred, preserved)| + 1 == |preferred| + |preserved| + 2
  {
    SplitPlain(preserved);
    assert [preserved][1..] == [];
    assert AddedAll(preferred, [preserved]) == AddedAll(Added(preferred, preserved), []);
  }
}
