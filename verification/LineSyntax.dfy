/** The shape of an input line: a head, its switches, and an argument remainder. */
module LineSyntax {
  import opened Wrappers
  import opened CommandSets

  datatype SwitchError = NoSwitch | InvalidCharacter(c: char)

  /** Unicode White_Space. */
  predicate IsSpace(c: char) {
    var n := c as int;
    || 0x9 <= n <= 0xD || n in {0x20, 0x85, 0xA0, 0x1680}
    || 0x2000 <= n <= 0x200A || n in {0x2028, 0x2029, 0x202F, 0x205F, 0x3000}
  }

  ghost predicate AllSpace(s: string) {
    forall c | c in s :: IsSpace(c)
  }

  function SkipSpace(s: string): string {
    if s != [] && IsSpace(s[0]) then SkipSpace(s[1..]) else s
  }

  function DropSpace(s: string): string {
    if s != [] && IsSpace(s[|s| - 1]) then DropSpace(s[..|s| - 1]) else s
  }

  function Trim(s: string): string {
    DropSpace(SkipSpace(s))
  }

  /** How many characters come before the first space. */
  function HeadLength(s: string): (n: nat)
    ensures n <= |s|
  {
    if s == [] || IsSpace(s[0]) then 0 else 1 + HeadLength(s[1..])
  }

  function Head(s: string): string {
    s[..HeadLength(s)]
  }

  function Remainder(s: string): string {
    if HeadLength(s) == |s| then [] else Trim(s[HeadLength(s) + 1..])
  }

  function Segments(s: string): (r: seq<string>)
    ensures r != []
  {
    if s == [] then [[]]
    else
      var rest := Segments(s[1..]);
      if s[0] == '/' then [[]] + rest else [[s[0]] + rest[0]] + rest[1..]
  }

  function FirstInvalid(s: string): (r: Option<char>)
    ensures r.None? <==> forall c :: c in s ==> IsTokenChar(c)
  {
    if s == [] then None else if !IsTokenChar(s[0]) then Some(s[0]) else FirstInvalid(s[1..])
  }

  function ParseSwitch(segment: string): Result<Token, SwitchError> {
    if segment == [] then Err(NoSwitch)
    else match FirstInvalid(segment) case Some(bad) => Err(InvalidCharacter(bad)) case None => Ok(segment)
  }

  /** Every segment as a switch, or the first that is not one. */
  function ParseSwitches(segments: seq<string>): Result<seq<Token>, SwitchError> {
    if segments == [] then Ok([])
    else match ParseSwitches(segments[..|segments| - 1])
      case Err(e) => Err(e)
      case Ok(earlier) =>
        match ParseSwitch(segments[|segments| - 1]) case Err(e) => Err(e) case Ok(last) => Ok(earlier + [last])
  }

  /** A head as it is written: the token, then each segment after a slash. */
  function Written(token: string, segments: seq<string>): string {
    if segments == [] then token else Written(token, segments[..|segments| - 1]) + "/" + segments[|segments| - 1]
  }

  ghost predicate NoSlash(s: string) {
    forall c | c in s :: c != '/'
  }

  /** The head, its argument and the space around them. */
  ghost predicate Spaced(line: string, lead: string, typed: string, gap: string, arg: string, trail: string) {
    && line == lead + typed + gap + arg + trail
    && AllSpace(lead) && AllSpace(gap) && AllSpace(trail)
    && (arg != [] ==> gap != [] && !IsSpace(arg[0]) && !IsSpace(arg[|arg| - 1]))
  }

  lemma {:induction false} Leading(s: string) returns (lead: string, rest: string)
    ensures s == lead + rest && AllSpace(lead) && rest == SkipSpace(s) && (rest != [] ==> !IsSpace(rest[0]))
  {
    lead, rest := [], s;
    if s != [] && IsSpace(s[0]) {
      lead, rest := Leading(s[1..]);
      lead := [s[0]] + lead;
    }
  }

  lemma {:induction false} Trailing(s: string) returns (trail: string)
    ensures s == DropSpace(s) + trail && AllSpace(trail) && (DropSpace(s) != [] ==> !IsSpace(DropSpace(s)[|DropSpace(s)| - 1]))
    decreases |s|
  {
    trail := [];
    if s != [] && IsSpace(s[|s| - 1]) {
      trail := Trailing(s[..|s| - 1]);
      trail := trail + [s[|s| - 1]];
    }
  }

  lemma {:induction false} HeadStops(s: string)
    ensures HeadLength(s) < |s| ==> IsSpace(s[HeadLength(s)])
    ensures forall i | 0 <= i < HeadLength(s) :: !IsSpace(s[i])
  {
    if s != [] && !IsSpace(s[0]) {
      HeadStops(s[1..]);
      assert forall i | 1 <= i < HeadLength(s) :: s[i] == s[1..][i - 1];
    }
  }

  lemma {:induction false} TrimKeepsCore(lead: string, core: string, trail: string)
    requires AllSpace(lead) && AllSpace(trail)
    requires core != [] ==> !IsSpace(core[0]) && !IsSpace(core[|core| - 1])
    ensures Trim(lead + core + trail) == core
  {
    if core == [] {
      assert lead + core + trail == lead + trail + [];
      SkipSpaceSkips(lead + trail, []);
    } else {
      assert lead + core + trail == lead + (core + trail);
      SkipSpaceSkips(lead, core + trail);
      DropSpaceDrops(core, trail);
    }
  }

  lemma {:induction false} SkipSpaceSkips(lead: string, rest: string)
    requires AllSpace(lead) && (rest != [] ==> !IsSpace(rest[0]))
    ensures SkipSpace(lead + rest) == rest
  {
    if lead == [] {
      assert lead + rest == rest;
    } else {
      assert (lead + rest)[0] == lead[0] && (lead + rest)[1..] == lead[1..] + rest;
      SkipSpaceSkips(lead[1..], rest);
    }
  }

  lemma {:induction false} DropSpaceDrops(front: string, trail: string)
    requires AllSpace(trail) && (front != [] ==> !IsSpace(front[|front| - 1]))
    ensures DropSpace(front + trail) == front
    decreases |trail|
  {
    if trail == [] {
      assert front + trail == front;
    } else {
      var n := |trail| - 1;
      assert (front + trail)[|front + trail| - 1] == trail[n] && (front + trail)[..|front + trail| - 1] == front + trail[..n];
      DropSpaceDrops(front, trail[..n]);
    }
  }

  lemma {:induction false} HeadIsWord(word: string, rest: string)
    requires forall c | c in word :: !IsSpace(c)
    requires rest != [] ==> IsSpace(rest[0])
    ensures HeadLength(word + rest) == |word|
  {
    if word == [] {
      assert word + rest == rest;
    } else {
      assert (word + rest)[0] == word[0] && (word + rest)[1..] == word[1..] + rest;
      HeadIsWord(word[1..], rest);
    }
  }

  lemma {:induction false} SegmentsSplit(a: string, b: string)
    requires forall c | c in b :: c != '/'
    ensures Segments(a + "/" + b) == Segments(a) + [b]
  {
    if a == [] {
      assert a + "/" + b == "/" + b && ("/" + b)[1..] == b;
      OneSegment(b);
    } else {
      SegmentsSplit(a[1..], b);
      var whole := a + "/" + b;
      assert whole[0] == a[0] && whole[1..] == a[1..] + "/" + b;
      var rest := Segments(a[1..]);
      if a[0] != '/' { assert (rest + [b])[1..] == rest[1..] + [b]; }
    }
  }

  lemma {:induction false} OneSegment(b: string)
    requires forall c | c in b :: c != '/'
    ensures Segments(b) == [b]
  {
    if b != [] {
      assert forall c | c in b[1..] :: c in b;
      OneSegment(b[1..]);
      assert b[0] in b && [b[0]] + b[1..] == b;
    }
  }

  /** Splitting a written head gives back its token and its segments. */
  lemma {:induction false} WrittenSplits(token: string, segments: seq<string>)
    requires NoSlash(token) && forall s | s in segments :: NoSlash(s)
    ensures Segments(Written(token, segments)) == [token] + segments
    decreases |segments|
  {
    if segments == [] {
      OneSegment(token);
    } else {
      var n := |segments| - 1;
      assert segments[n] in segments;
      WrittenSplits(token, segments[..n]);
      SegmentsSplit(Written(token, segments[..n]), segments[n]);
      assert segments == segments[..n] + [segments[n]];
    }
  }

  /** Every head is written so. */
  lemma {:induction false} SegmentsAreWritten(head: string)
    ensures head == Written(Segments(head)[0], Segments(head)[1..])
  {
    if head != [] {
      var rest := Segments(head[1..]);
      SegmentsAreWritten(head[1..]);
      assert head == [head[0]] + head[1..];
      if head[0] == '/' {
        WrittenAfter("/", rest[0], rest[1..]);
        SlashOpens(rest);
        assert Segments(head)[1..] == rest;
      } else {
        WrittenAfter([head[0]], rest[0], rest[1..]);
        assert Segments(head)[1..] == rest[1..];
      }
    }
  }

  lemma {:induction false} SegmentsHaveNoSlash(head: string)
    ensures forall i | 0 <= i < |Segments(head)| :: NoSlash(Segments(head)[i])
  {
    if head != [] {
      SegmentsHaveNoSlash(head[1..]);
      var rest := Segments(head[1..]);
      forall i | 0 <= i < |Segments(head)| ensures NoSlash(Segments(head)[i]) {
        assert NoSlash(rest[0]);
        if head[0] == '/' {
          assert i > 0 ==> Segments(head)[i] == rest[i - 1];
        } else {
          assert i > 0 ==> Segments(head)[i] == rest[i];
        }
      }
    }
  }

  lemma {:induction false} WrittenAfter(front: string, token: string, segments: seq<string>)
    ensures Written(front + token, segments) == front + Written(token, segments)
    decreases |segments|
  {
    if segments != [] {
      WrittenAfter(front, token, segments[..|segments| - 1]);
    }
  }

  lemma {:induction false} SlashOpens(segments: seq<string>)
    requires segments != []
    ensures Written([], segments) == Written("/" + segments[0], segments[1..])
    decreases |segments|
  {
    var n := |segments| - 1;
    if n == 0 {
      assert Written([], segments[..0]) == [];
    } else {
      SlashOpens(segments[..n]);
      assert segments[..n][1..] == segments[1..][..n - 1] && segments[1..][n - 1] == segments[n];
    }
  }

  /** `c` is the first character of `s` that a switch may not have. */
  ghost predicate FirstBad(s: string, c: char) {
    exists i :: 0 <= i < |s| && s[i] == c && !IsTokenChar(c) && forall j | 0 <= j < i :: IsTokenChar(s[j])
  }

  /** What is wrong with a segment that is no switch. */
  ghost predicate Faults(segment: string, e: SwitchError) {
    match e
    case NoSwitch => segment == []
    case InvalidCharacter(c) => FirstBad(segment, c)
  }

  lemma {:induction false} FirstInvalidIs(s: string)
    ensures FirstInvalid(s).None? <==> forall c | c in s :: IsTokenChar(c)
    ensures FirstInvalid(s).Some? ==> FirstBad(s, FirstInvalid(s).value)
  {
    if s != [] && IsTokenChar(s[0]) {
      FirstInvalidIs(s[1..]);
      if FirstInvalid(s).Some? {
        var c := FirstInvalid(s).value;
        var i :| 0 <= i < |s[1..]| && s[1..][i] == c && forall j | 0 <= j < i :: IsTokenChar(s[1..][j]);
        forall j | 0 <= j < i + 1 ensures IsTokenChar(s[j]) {
          assert j > 0 ==> s[j] == s[1..][j - 1];
        }
        assert s[i + 1] == c;
      }
    }
  }

  /** Segments that are all switches are read as they are. */
  lemma {:induction false} SwitchesRead(segments: seq<string>)
    requires forall i | 0 <= i < |segments| :: IsToken(segments[i])
    ensures ParseSwitches(segments) == Ok(segments)
    decreases |segments|
  {
    hide IsToken;
    if segments != [] {
      var n := |segments| - 1;
      SwitchesRead(segments[..n]);
      SwitchOrFault(segments[n]);
      assert segments == segments[..n] + [segments[n]];
    }
  }

  /** The first segment that is no switch gives its own fault. */
  lemma {:induction false} FaultRead(segments: seq<string>, k: nat)
    requires k < |segments| && (forall j | 0 <= j < k :: IsToken(segments[j])) && !IsToken(segments[k])
    ensures ParseSwitches(segments).Err? && Faults(segments[k], ParseSwitches(segments).error)
    decreases |segments|
  {
    hide IsToken, Faults;
    var n := |segments| - 1;
    if k < n {
      FaultRead(segments[..n], k);
    } else {
      SwitchesRead(segments[..n]);
      SwitchOrFault(segments[n]);
    }
  }

  lemma SwitchOrFault(segment: string)
    ensures IsToken(segment) ==> ParseSwitch(segment) == Ok(segment)
    ensures !IsToken(segment) ==> ParseSwitch(segment).Err? && Faults(segment, ParseSwitch(segment).error)
  {
    FirstInvalidIs(segment);
  }

  /**
   * However it is spaced, a line made of a head and an argument splits into them again; the argument
   * keeps its inner spacing.
   */
  lemma LineSplits(lead: string, head: string, gap: string, args: string, trail: string)
    requires head != [] && forall c | c in head :: !IsSpace(c)
    requires Spaced(lead + head + gap + args + trail, lead, head, gap, args, trail)
    ensures var trimmed := Trim(lead + head + gap + args + trail);
            Head(trimmed) == head && Remainder(trimmed) == args
  {
    if args == [] {
      assert lead + head + gap + args + trail == lead + head + (gap + trail);
      TrimKeepsCore(lead, head, gap + trail);
      HeadIsWord(head, []);
      assert head + [] == head;
    } else {
      var core := head + gap + args;
      assert lead + head + gap + args + trail == lead + core + trail;
      TrimKeepsCore(lead, core, trail);
      assert core == head + (gap + args);
      HeadIsWord(head, gap + args);
      assert core[|head| + 1..] == gap[1..] + args + [];
      TrimKeepsCore(gap[1..], args, []);
    }
  }
}
