/** Collaboration groups: how a group name and a list of groups are normalised and updated. */
module AgentGroups {
  import opened Wrappers

  const MAX_GROUP_CHARS: nat := 80

  // ---------------------------------------------------------------- characters

  /** Unicode white space. */
  predicate IsSpace(c: char) {
    || '\U{9}' <= c <= '\U{D}' || c == ' ' || c == '\U{85}' || c == '\U{A0}' || c == '\U{1680}'
    || '\U{2000}' <= c <= '\U{200A}' || c == '\U{2028}' || c == '\U{2029}' || c == '\U{202F}'
    || c == '\U{205F}' || c == '\U{3000}'
  }

  predicate IsLower(c: char) { 'a' <= c <= 'z' || '0' <= c <= '9' }

  predicate IsUpper(c: char) { 'A' <= c <= 'Z' }

  /** Punctuation a group may contain but not begin or end with. */
  predicate IsEdge(c: char) { c == '.' || c == '-' || c == '_' || c == ':' }

  function ToLower(c: char): char
    requires IsUpper(c)
  {
    c - 'A' + 'a'
  }

  /** What becomes of one character: kept, lowered, turned into a dash, or dropped. */
  function Mapped(c: char): Option<char> {
    if IsLower(c) || IsEdge(c) then Some(c)
    else if IsUpper(c) then Some(ToLower(c))
    else if IsSpace(c) || c == '/' || c == '\\' then Some('-')
    else None
  }

  // ---------------------------------------------------------------- one group: the specification

  function TrimStart(s: string, drop: char -> bool): string {
    if s != [] && drop(s[0]) then TrimStart(s[1..], drop) else s
  }

  function TrimEnd(s: string, drop: char -> bool): string {
    if s != [] && drop(s[|s| - 1]) then TrimEnd(s[..|s| - 1], drop) else s
  }

  function Trim(s: string, drop: char -> bool): string {
    TrimEnd(TrimStart(s, drop), drop)
  }

  function MapChars(s: string): string {
    if s == [] then []
    else
      var before := MapChars(s[..|s| - 1]);
      var c := Mapped(s[|s| - 1]);
      if c.Some? then before + [c.value] else before
  }

  /** Each run of dashes becomes one dash. */
  function Squeeze(s: string): string {
    if s == [] then []
    else
      var n := |s| - 1;
      if s[n] == '-' && n > 0 && s[n - 1] == '-' then Squeeze(s[..n]) else Squeeze(s[..n]) + [s[n]]
  }

  function Shorten(s: string): string {
    if |s| <= MAX_GROUP_CHARS then s else s[..MAX_GROUP_CHARS]
  }

  function Normalized(group: string): Option<string> {
    var out := Trim(Shorten(Squeeze(MapChars(Trim(group, IsSpace)))), IsEdge);
    if out == [] then None else Some(out)
  }

  /** A well-formed group name. */
  predicate IsNormal(g: string) {
    && 1 <= |g| <= 80
    && Allowed(g) && NoDoubleDash(g)
    && !IsEdge(g[0]) && !IsEdge(g[|g| - 1])
  }

  predicate NoDoubleDash(s: string) {
    forall i :: 0 < i < |s| ==> !(s[i - 1] == '-' && s[i] == '-')
  }

  predicate Allowed(s: string) {
    forall i :: 0 <= i < |s| ==> IsLower(s[i]) || IsEdge(s[i])
  }

  // ---------------------------------------------------------------- one group: the loop

  lemma {:induction false} SqueezeGrows(a: string, b: string)
    ensures Squeeze(a) <= Squeeze(a + b)
    decreases |b|
  {
    if b == [] {
      assert a + b == a;
    } else {
      SqueezeGrows(a, b[..|b| - 1]);
      assert (a + b)[..|a + b| - 1] == a + b[..|b| - 1];
    }
  }

  lemma {:induction false} MapCharsGrows(a: string, b: string)
    ensures MapChars(a) <= MapChars(a + b)
    decreases |b|
  {
    if b == [] {
      assert a + b == a;
    } else {
      MapCharsGrows(a, b[..|b| - 1]);
      assert (a + b)[..|a + b| - 1] == a + b[..|b| - 1];
    }
  }

  /** Once the limit is reached, the rest of the text does not matter. */
  lemma ShortenedEarly(s: string, i: nat)
    requires i <= |s| && |Squeeze(MapChars(s[..i]))| == MAX_GROUP_CHARS
    ensures Shorten(Squeeze(MapChars(s))) == Squeeze(MapChars(s[..i]))
  {
    assert s == s[..i] + s[i..];
    MapCharsGrows(s[..i], s[i..]);
    var a, b := MapChars(s[..i]), MapChars(s);
    assert b == a + b[|a|..];
    SqueezeGrows(a, b[|a|..]);
  }

  /** Normalise a group in one pass, dropping a dash after a dash and stopping at the limit. */
  method NormalizeGroup(group: string) returns (r: Option<string>)
    ensures r == Normalized(group)
  {
    var trimmed := Trim(group, IsSpace);
    if trimmed == [] {
      return None;
    }
    var out: string := [];
    var previousDash := false;
    var i := 0;
    while i < |trimmed|
      invariant 0 <= i <= |trimmed|
      invariant out == Squeeze(MapChars(trimmed[..i])) && |out| < MAX_GROUP_CHARS
      invariant var m := MapChars(trimmed[..i]); previousDash <==> m != [] && m[|m| - 1] == '-'
    {
      var next := Mapped(trimmed[i]);
      i := i + 1;
      assert trimmed[..i][..i - 1] == trimmed[..i - 1];
      if next.None? {
        continue;
      }
      ghost var m := MapChars(trimmed[..i]);
      assert m[..|m| - 1] == MapChars(trimmed[..i - 1]);
      if next.value == '-' {
        if previousDash {
          continue;
        }
        previousDash := true;
      } else {
        previousDash := false;
      }
      out := out + [next.value];
      if |out| >= MAX_GROUP_CHARS {
        break;
      }
    }
    if |out| >= MAX_GROUP_CHARS {
      ShortenedEarly(trimmed, i);
    } else {
      assert trimmed[..i] == trimmed;
    }
    var shown := Trim(out, IsEdge);
    return if shown == [] then None else Some(shown);
  }

  // ---------------------------------------------------------------- one group: the result is well-formed

  /** Trimming keeps a contiguous piece whose ends are not dropped. */
  lemma {:induction false} TrimStartIsSuffix(s: string, drop: char -> bool) returns (i: nat)
    ensures i <= |s| && TrimStart(s, drop) == s[i..]
    ensures i < |s| ==> !drop(s[i])
    ensures forall k :: 0 <= k < i ==> drop(s[k])
  {
    if s != [] && drop(s[0]) {
      i := TrimStartIsSuffix(s[1..], drop);
      i := i + 1;
    } else {
      i := 0;
    }
  }

  lemma {:induction false} TrimEndIsPrefix(s: string, drop: char -> bool) returns (j: nat)
    ensures j <= |s| && TrimEnd(s, drop) == s[..j]
    ensures j > 0 ==> !drop(s[j - 1])
    ensures forall k :: j <= k < |s| ==> drop(s[k])
  {
    if s != [] && drop(s[|s| - 1]) {
      j := TrimEndIsPrefix(s[..|s| - 1], drop);
      assert s[..|s| - 1][..j] == s[..j];
    } else {
      j := |s|;
    }
  }

  /** Trimming takes off what is to be dropped at both ends, all of it and nothing else. */
  lemma TrimIsSlice(s: string, drop: char -> bool) returns (i: nat, j: nat)
    ensures i <= j <= |s| && Trim(s, drop) == s[i..j]
    ensures i < j ==> !drop(s[i]) && !drop(s[j - 1])
    ensures forall k :: 0 <= k < i || j <= k < |s| ==> drop(s[k])
  {
    i := TrimStartIsSuffix(s, drop);
    var k := TrimEndIsPrefix(s[i..], drop);
    j := i + k;
    assert s[i..][..k] == s[i..j];
  }

  lemma TrimNothing(s: string, drop: char -> bool)
    requires s != [] ==> !drop(s[0]) && !drop(s[|s| - 1])
    ensures Trim(s, drop) == s
  {
  }

  lemma {:induction false} MapCharsAllowed(s: string)
    ensures Allowed(MapChars(s))
  {
    if s != [] {
      MapCharsAllowed(s[..|s| - 1]);
    }
  }

  lemma {:induction false} SqueezeForm(s: string)
    requires Allowed(s)
    ensures Allowed(Squeeze(s)) && NoDoubleDash(Squeeze(s))
    ensures s != [] ==> Squeeze(s) != [] && Squeeze(s)[|Squeeze(s)| - 1] == s[|s| - 1]
  {
    if s != [] {
      SqueezeForm(s[..|s| - 1]);
    }
  }

  /** Whatever the input, a normalised group is well-formed. */
  lemma NormalizedIsNormal(group: string)
    ensures Normalized(group).Some? ==> IsNormal(Normalized(group).value)
  {
    var mapped := MapChars(Trim(group, IsSpace));
    MapCharsAllowed(Trim(group, IsSpace));
    SqueezeForm(mapped);
    var short := Shorten(Squeeze(mapped));
    assert Allowed(short) && NoDoubleDash(short);
    var i, j := TrimIsSlice(short, IsEdge);
    var g := short[i..j];
    assert forall k :: 0 <= k < |g| ==> g[k] == short[i + k];
    assert NoDoubleDash(g) by {
      forall k | 0 < k < |g| ensures !(g[k - 1] == '-' && g[k] == '-') {
        assert g[k - 1] == short[i + k - 1] && g[k] == short[i + k];
      }
    }
  }

  lemma {:induction false} MapCharsKeeps(s: string)
    requires Allowed(s)
    ensures MapChars(s) == s
  {
    if s != [] {
      MapCharsKeeps(s[..|s| - 1]);
      assert s == s[..|s| - 1] + [s[|s| - 1]];
    }
  }

  lemma {:induction false} SqueezeKeeps(s: string)
    requires NoDoubleDash(s)
    ensures Squeeze(s) == s
  {
    if s != [] {
      SqueezeKeeps(s[..|s| - 1]);
      assert s == s[..|s| - 1] + [s[|s| - 1]];
    }
  }

  /** The fixed points of normalisation are exactly the well-formed groups. */
  lemma NormalIffFixed(g: string)
    ensures Normalized(g) == Some(g) <==> IsNormal(g)
  {
    NormalizedIsNormal(g);
    if IsNormal(g) {
      TrimNothing(g, IsSpace);
      MapCharsKeeps(g);
      SqueezeKeeps(g);
      TrimNothing(g, IsEdge);
    }
  }

  // ---------------------------------------------------------------- one group: what each step does

  /** A text is mapped character by character. */
  lemma {:induction false} MappedPiecewise(a: string, b: string)
    ensures MapChars(a + b) == MapChars(a) + MapChars(b)
    decreases |b|
  {
    if b == [] {
      assert a + b == a;
    } else {
      MappedPiecewise(a, b[..|b| - 1]);
      assert (a + b)[..|a + b| - 1] == a + b[..|b| - 1];
    }
  }

  /** What a character becomes: small letters, digits and `:._-` stay, capitals turn small, blanks and slashes turn
      into dashes, and everything else goes. */
  lemma CharacterBecomes(c: char)
    ensures 'a' <= c <= 'z' || '0' <= c <= '9' || c == ':' || c == '.' || c == '_' || c == '-' ==>
              MapChars([c]) == [c]
    ensures 'A' <= c <= 'Z' ==> MapChars([c]) == [(c as int + 32) as char]
    ensures c == ' ' || c == '\t' || c == '\n' || c == '\r' || c == '\U{A0}' || c == '/' || c == '\\' ==>
              MapChars([c]) == ['-']
    ensures c == '!' || c == '@' || c == '[' || c == '`' || c == '{' || c == '~' || c == '\U{E9}' ==>
              MapChars([c]) == []
  {
    OneCharacter(c);
  }

  lemma OneCharacter(c: char)
    ensures MapChars([c]) == if Mapped(c).Some? then [Mapped(c).value] else []
  {
    assert [c][..0] == [];
  }

  /** Two dashes in a row count as one. With `SqueezeKeeps` this says what squeezing yields for every text. */
  lemma {:induction false} DashesCollapse(a: string, b: string)
    ensures Squeeze(a + "--" + b) == Squeeze(a + "-" + b)
    decreases |b|
  {
    var long, short := a + "--" + b, a + "-" + b;
    if b == [] {
      assert long[..|long| - 1] == short && long[|long| - 1] == '-' && long[|long| - 2] == '-';
    } else {
      var n := |b| - 1;
      DashesCollapse(a, b[..n]);
      assert long[..|long| - 1] == a + "--" + b[..n] && short[..|short| - 1] == a + "-" + b[..n];
      assert long[|long| - 2] == short[|short| - 2] && long[|long| - 1] == short[|short| - 1] == b[n];
    }
  }

  /** A text with its capitals turned small. */
  function Lowered(s: string): string {
    if s == [] then [] else Lowered(s[..|s| - 1]) + [if IsUpper(s[|s| - 1]) then ToLower(s[|s| - 1]) else s[|s| - 1]]
  }

  lemma {:induction false} LoweredAt(s: string)
    ensures |Lowered(s)| == |s|
    ensures forall k :: 0 <= k < |s| ==> Lowered(s)[k] == if 'A' <= s[k] <= 'Z' then s[k] - 'A' + 'a' else s[k]
  {
    if s != [] {
      LoweredAt(s[..|s| - 1]);
    }
  }

  lemma LoweredSlice(s: string, i: nat, j: nat)
    requires i <= j <= |s|
    ensures |Lowered(s)| == |s| && Lowered(s)[i..j] == Lowered(s[i..j])
  {
    LoweredAt(s);
    LoweredAt(s[i..j]);
  }

  /** Where the trimmed piece begins and ends depends only on which characters are dropped. */
  lemma TrimSameSlice(s: string, t: string, drop: char -> bool, i: nat, j: nat)
    requires |s| == |t| && forall k :: 0 <= k < |s| ==> drop(s[k]) == drop(t[k])
    requires i <= j <= |s|
    requires i < j ==> !drop(s[i]) && !drop(s[j - 1])
    requires forall k :: 0 <= k < i || j <= k < |s| ==> drop(s[k])
    ensures Trim(t, drop) == t[i..j]
  {
    var a, b := TrimIsSlice(t, drop);
    if i < j {
      assert a <= i && j <= b;
      assert a == i && b == j;
    } else {
      assert forall k :: 0 <= k < |t| ==> drop(t[k]);
      assert a == b;
    }
  }

  lemma {:induction false} MapCharsIgnoresCase(s: string)
    ensures MapChars(Lowered(s)) == MapChars(s)
  {
    if s != [] {
      MapCharsIgnoresCase(s[..|s| - 1]);
      assert Lowered(s)[..|Lowered(s)| - 1] == Lowered(s[..|s| - 1]);
    }
  }

  lemma SpacesHaveNoCase(s: string)
    ensures |Lowered(s)| == |s| && forall k :: 0 <= k < |s| ==> IsSpace(Lowered(s)[k]) == IsSpace(s[k])
  {
    LoweredAt(s);
    forall k | 0 <= k < |s| ensures IsSpace(Lowered(s)[k]) == IsSpace(s[k]) {
      if 'A' <= s[k] <= 'Z' {
        assert !IsSpace(s[k]) && 'a' <= Lowered(s)[k] <= 'z';
      }
    }
  }

  lemma TrimIgnoresCase(s: string)
    ensures Trim(Lowered(s), IsSpace) == Lowered(Trim(s, IsSpace))
  {
    var i, j := TrimIsSlice(s, IsSpace);
    SpacesHaveNoCase(s);
    TrimSameSlice(s, Lowered(s), IsSpace, i, j);
    LoweredSlice(s, i, j);
  }

  /** Case does not matter. */
  lemma CaseIsIgnored(group: string)
    ensures Normalized(Lowered(group)) == Normalized(group)
  {
    TrimIgnoresCase(group);
    MapCharsIgnoresCase(Trim(group, IsSpace));
  }

  /** Blanks around a name do not matter. */
  lemma PaddingIsIgnored(group: string, c: char)
    requires IsSpace(c)
    ensures Normalized([c] + group) == Normalized(group)
    ensures Normalized(group + [c]) == Normalized(group)
  {
    var i, j := TrimIsSlice(group, IsSpace);
    var before, after := [c] + group, group + [c];
    if i < j {
      TrimSameSlice(before, before, IsSpace, i + 1, j + 1);
      TrimSameSlice(after, after, IsSpace, i, j);
      assert before[i + 1..j + 1] == group[i..j] && after[i..j] == group[i..j];
    } else {
      assert forall k :: 0 <= k < |group| ==> IsSpace(group[k]);
      TrimSameSlice(before, before, IsSpace, 0, 0);
      TrimSameSlice(after, after, IsSpace, 0, 0);
    }
  }

  // ---------------------------------------------------------------- lists of groups

  /** What a function makes of the groups, in order of first appearance. */
  function Collected(groups: seq<string>, norm: string -> Option<string>): seq<string> {
    if groups == [] then []
    else Extend(Collected(groups[..|groups| - 1], norm), norm(groups[|groups| - 1]))
  }

  /** Normalised groups in order of first appearance. */
  function NormalizedList(groups: seq<string>): seq<string> {
    Collected(groups, Normalized)
  }

  /** One group more, unless it is there. */
  function Extend(list: seq<string>, g: Option<string>): seq<string> {
    if g.Some? && g.value !in list then list + [g.value] else list
  }

  predicate Distinct(xs: seq<string>) {
    forall i, j :: 0 <= i < j < |xs| ==> xs[i] != xs[j]
  }

  predicate IsNormalList(xs: seq<string>) {
    Distinct(xs) && forall i :: 0 <= i < |xs| ==> IsNormal(xs[i])
  }

  method NormalizeGroups(groups: seq<string>) returns (normalized: seq<string>)
    ensures normalized == NormalizedList(groups)
  {
    var seen: set<string> := {};
    normalized := [];
    for i := 0 to |groups|
      invariant normalized == NormalizedList(groups[..i])
      invariant forall g :: g in seen <==> g in normalized
    {
      assert groups[..i + 1][..i] == groups[..i];
      var group := NormalizeGroup(groups[i]);
      if group.Some? && group.value !in seen {
        seen := seen + {group.value};
        normalized := normalized + [group.value];
      }
    }
    assert groups[..|groups|] == groups;
  }

  /** The well-formed union of two lists; a normal first list is kept in front. */
  method MergeAgentGroups(first: seq<string>, second: seq<string>) returns (merged: seq<string>)
    ensures IsNormalList(merged)
    ensures forall g :: g in merged <==> exists h :: (h in first || h in second) && Normalized(h) == Some(g)
    ensures IsNormalList(first) ==> merged == first + Without(NormalizedList(second), first)
  {
    merged := first + second;
    merged := NormalizeGroups(merged);
    NormalizedListForm(first + second);
    assert forall h :: h in first + second <==> h in first || h in second;
    if IsNormalList(first) {
      AddIsOrderedUnion(first, second);
    }
  }

  lemma {:induction false} CollectedForm(groups: seq<string>, norm: string -> Option<string>)
    ensures Distinct(Collected(groups, norm))
    ensures forall g :: g in Collected(groups, norm) <==> exists h :: h in groups && norm(h) == Some(g)
  {
    if groups != [] {
      var n := |groups| - 1;
      CollectedForm(groups[..n], norm);
      forall g ensures g in Collected(groups, norm) <==> exists h :: h in groups && norm(h) == Some(g) {
        assert forall h :: h in groups <==> h in groups[..n] || h == groups[n];
      }
    }
  }

  /** The list form yields well-formed, distinct groups, and exactly those of its input. */
  lemma NormalizedListForm(groups: seq<string>)
    ensures IsNormalList(NormalizedList(groups))
    ensures forall g :: g in NormalizedList(groups) <==> exists h :: h in groups && Normalized(h) == Some(g)
  {
    CollectedForm(groups, Normalized);
    var list := NormalizedList(groups);
    forall i | 0 <= i < |list| ensures IsNormal(list[i]) {
      assert list[i] in list;
      var h :| h in groups && Normalized(h) == Some(list[i]);
      NormalizedIsNormal(h);
    }
  }

  lemma {:induction false} FixedListIsKept(xs: seq<string>, norm: string -> Option<string>)
    requires Distinct(xs) && forall i :: 0 <= i < |xs| ==> norm(xs[i]) == Some(xs[i])
    ensures Collected(xs, norm) == xs
  {
    if xs != [] {
      var n := |xs| - 1;
      FixedListIsKept(xs[..n], norm);
      assert xs[n] !in xs[..n];
      assert xs == xs[..n] + [xs[n]];
    }
  }

  lemma NormalListIsKept(xs: seq<string>)
    requires IsNormalList(xs)
    ensures NormalizedList(xs) == xs
  {
    forall i | 0 <= i < |xs| ensures Normalized(xs[i]) == Some(xs[i]) {
      NormalIffFixed(xs[i]);
    }
    FixedListIsKept(xs, Normalized);
  }

  /** Normalising a list twice is normalising it once; its fixed points are the normal lists. */
  lemma ListIsIdempotent(groups: seq<string>)
    ensures NormalizedList(NormalizedList(groups)) == NormalizedList(groups)
    ensures NormalizedList(groups) == groups <==> IsNormalList(groups)
  {
    NormalizedListForm(groups);
    NormalListIsKept(NormalizedList(groups));
    if IsNormalList(groups) {
      NormalListIsKept(groups);
    }
  }

  // ---------------------------------------------------------------- updates

  datatype UpdateMode = SetGroups | AddGroups | RemoveGroups

  /** The elements of a list that are not in another, in order. */
  function Without(xs: seq<string>, ys: seq<string>): seq<string> {
    if xs == [] then []
    else
      var before := Without(xs[..|xs| - 1], ys);
      if xs[|xs| - 1] in ys then before else before + [xs[|xs| - 1]]
  }

  function Update(existing: seq<string>, groups: seq<string>, mode: UpdateMode): seq<string> {
    match mode
    case SetGroups => groups
    case AddGroups => NormalizedList(existing + groups)
    case RemoveGroups => Without(existing, groups)
  }

  method ApplyGroupUpdate(existing: seq<string>, groups: seq<string>, mode: UpdateMode) returns (next: seq<string>)
    ensures next == Update(existing, groups, mode)
  {
    match mode
    case SetGroups => next := groups;
    case AddGroups => next := NormalizeGroups(existing + groups);
    case RemoveGroups =>
      next := [];
      for i := 0 to |existing|
        invariant next == Without(existing[..i], groups)
      {
        assert existing[..i + 1][..i] == existing[..i];
        if existing[i] !in groups {
          next := next + [existing[i]];
        }
      }
      assert existing[..|existing|] == existing;
  }

  lemma {:induction false} WithoutForm(xs: seq<string>, ys: seq<string>)
    ensures forall x :: x in Without(xs, ys) <==> x in xs && x !in ys
  {
    if xs != [] {
      var n := |xs| - 1;
      WithoutForm(xs[..n], ys);
      assert forall x :: x in xs <==> x in xs[..n] || x == xs[n];
    }
  }

  lemma {:induction false} WithoutStaysNormal(xs: seq<string>, ys: seq<string>)
    requires IsNormalList(xs)
    ensures IsNormalList(Without(xs, ys))
  {
    if xs != [] {
      var n := |xs| - 1;
      WithoutStaysNormal(xs[..n], ys);
      WithoutForm(xs[..n], ys);
      assert xs[n] !in xs[..n];
    }
  }

  lemma WithoutOneMore(xs: seq<string>, x: string, ys: seq<string>)
    ensures Without(xs + [x], ys) == if x in ys then Without(xs, ys) else Without(xs, ys) + [x]
  {
    assert (xs + [x])[..|xs|] == xs;
  }

  /** Extending the union is extending the list that is added. */
  lemma ExtendUnion(existing: seq<string>, before: seq<string>, g: Option<string>)
    ensures Extend(existing + Without(before, existing), g) == existing + Without(Extend(before, g), existing)
  {
    if g.Some? {
      WithoutForm(before, existing);
      WithoutOneMore(before, g.value, existing);
      var rest := Without(before, existing);
      assert g.value in existing + rest <==> g.value in existing || g.value in before;
      assert existing + rest + [g.value] == existing + (rest + [g.value]);
    }
  }

  lemma {:induction false} CollectedUnion(existing: seq<string>, groups: seq<string>, norm: string -> Option<string>)
    requires Collected(existing, norm) == existing
    ensures Collected(existing + groups, norm) == existing + Without(Collected(groups, norm), existing)
    decreases |groups|
  {
    if groups == [] {
      assert existing + groups == existing;
    } else {
      var n := |groups| - 1;
      CollectedUnion(existing, groups[..n], norm);
      assert (existing + groups)[..|existing + groups| - 1] == existing + groups[..n];
      ExtendUnion(existing, Collected(groups[..n], norm), norm(groups[n]));
    }
  }

  /** Adding to a normal list is ordered union: the list, then the new groups in order of appearance. */
  lemma AddIsOrderedUnion(existing: seq<string>, groups: seq<string>)
    requires IsNormalList(existing)
    ensures Update(existing, groups, AddGroups) == existing + Without(NormalizedList(groups), existing)
  {
    NormalListIsKept(existing);
    CollectedUnion(existing, groups, Normalized);
  }

  /**
   An Add keeps the groups that were there exactly when they form a normal list: a group that is too
   long or otherwise not in normal form, as a default project group may be, is rewritten by the update.
   */
  lemma AddKeepsExistingExactlyWhen(existing: seq<string>, groups: seq<string>)
    ensures existing <= Update(existing, groups, AddGroups) <==> IsNormalList(existing)
  {
    if IsNormalList(existing) {
      AddIsOrderedUnion(existing, groups);
    }
    NormalizedListForm(existing + groups);
  }

  /** Every update of a normal list with normal groups gives a normal list with the promised members. */
  lemma UpdateStaysNormal(existing: seq<string>, groups: seq<string>, mode: UpdateMode)
    requires IsNormalList(existing) && IsNormalList(groups)
    ensures var next := Update(existing, groups, mode);
            && IsNormalList(next)
            && forall g :: g in next <==> match mode
                                           case SetGroups => g in groups
                                           case AddGroups => g in existing || g in groups
                                           case RemoveGroups => g in existing && g !in groups
  {
    NormalizedListForm(existing + groups);
    WithoutForm(existing, groups);
    WithoutStaysNormal(existing, groups);
    AddIsOrderedUnion(existing, groups);
    NormalListIsKept(groups);
    WithoutForm(groups, existing);
  }

  /** Adding groups that were not there and removing them again changes nothing. */
  lemma AddThenRemove(existing: seq<string>, groups: seq<string>)
    requires IsNormalList(existing) && IsNormalList(groups)
    requires forall g :: g in groups ==> g !in existing
    ensures Update(Update(existing, groups, AddGroups), groups, RemoveGroups) == existing
  {
    AddIsOrderedUnion(existing, groups);
    NormalListIsKept(groups);
    WithoutApart(groups, existing);
    WithoutSuffix(existing, groups, groups);
    WithoutApart(existing, groups);
  }

  lemma {:induction false} WithoutApart(xs: seq<string>, ys: seq<string>)
    requires forall x :: x in xs ==> x !in ys
    ensures Without(xs, ys) == xs
  {
    if xs != [] {
      WithoutApart(xs[..|xs| - 1], ys);
      assert xs == xs[..|xs| - 1] + [xs[|xs| - 1]];
    }
  }

  lemma {:induction false} WithoutSuffix(xs: seq<string>, tail: seq<string>, ys: seq<string>)
    requires forall x :: x in tail ==> x in ys
    ensures Without(xs + tail, ys) == Without(xs, ys)
    decreases |tail|
  {
    if tail == [] {
      assert xs + tail == xs;
    } else {
      WithoutSuffix(xs, tail[..|tail| - 1], ys);
      assert (xs + tail)[..|xs + tail| - 1] == xs + tail[..|tail| - 1];
    }
  }
}
