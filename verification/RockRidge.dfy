/** Rock Ridge names and symbolic links: split into entries and joined again
  (pkg/iso9660/rrip/nm.go, pkg/iso9660/rrip/sl.go). */
module RockRidge {
  import opened Prelude
  import opened Susp

  // ----- names -----

  const NAME_CHUNK := 250

  /** The NM entries of a name: chunks of at most 250 bytes, all but the last marked as continued. */
  function NameEntries(name: Bytes): seq<Entry>
    decreases |name|
  {
    if name == [] then []
    else if |name| > NAME_CHUNK then [NM(true, name[..NAME_CHUNK])] + NameEntries(name[NAME_CHUNK..])
    else [NM(false, name)]
  }

  method NewName(name: Bytes) returns (r: Result<seq<Entry>>)
    ensures r.Ok? <==> ValidName(name)
    ensures r.Ok? ==> r.value == NameEntries(name)
  {
    if !ValidName(name) {
      return Err;
    }
    var entries: seq<Entry> := [];
    var remaining := name;
    while |remaining| > 0
      invariant entries + NameEntries(remaining) == NameEntries(name)
      decreases |remaining|
    {
      var chunk;
      ghost var before := remaining;
      if |remaining| > NAME_CHUNK {
        chunk, remaining := remaining[..NAME_CHUNK], remaining[NAME_CHUNK..];
      } else {
        chunk, remaining := remaining, [];
      }
      var cont := |remaining| > 0;
      assert NameEntries(before) == [NM(cont, chunk)] + NameEntries(remaining);
      entries := entries + [NM(cont, chunk)];
    }
    r := Ok(entries);
  }

  lemma {:induction false} NameEntriesValid(name: Bytes)
    requires ValidName(name)
    ensures forall e | e in NameEntries(name) :: Valid(e) && e.NM?
    decreases |name|
  {
    if |name| > NAME_CHUNK { NameEntriesValid(name[NAME_CHUNK..]); }
  }

  /** Every entry that is continued is as long as an entry can be: a name takes as few of them as possible. */
  lemma {:induction false} NameEntriesFull(name: Bytes)
    ensures forall e | e in NameEntries(name) :: e.NM? && (e.cont ==> Len(e) == 0xFF)
    decreases |name|
  {
    if |name| > NAME_CHUNK { NameEntriesFull(name[NAME_CHUNK..]); }
  }

  /** The name pieced together from the NM entries up to the first that is not continued. */
  function JoinName(so: Bytes, entries: seq<Entry>): Option<Bytes>
    decreases |entries|
  {
    if entries == [] then None
    else if !entries[0].NM? then JoinName(so, entries[1..])
    else if !entries[0].cont then Some(so + entries[0].name)
    else JoinName(so + entries[0].name, entries[1..])
  }

  method DecodeName(entries: seq<Entry>) returns (r: Option<Bytes>)
    ensures r == JoinName([], entries)
  {
    var result: Bytes := [];
    for i := 0 to |entries|
      invariant JoinName(result, entries[i..]) == JoinName([], entries)
    {
      assert entries[i..][1..] == entries[i + 1..];
      if entries[i].NM? {
        result := result + entries[i].name;
        if !entries[i].cont {
          return Some(result);
        }
      }
    }
    r := None;
  }

  lemma JoinChunk(so: Bytes, chunk: Bytes, rest: seq<Entry>)
    ensures JoinName(so, [NM(true, chunk)] + rest) == JoinName(so + chunk, rest)
  {
    assert ([NM(true, chunk)] + rest)[1..] == rest;
  }

  /** A name of any positive length survives, wherever its entries stand among others. */
  lemma {:induction false} NameRoundTrip(so: Bytes, name: Bytes, after: seq<Entry>)
    requires name != []
    ensures JoinName(so, NameEntries(name) + after) == Some(so + name)
    decreases |name|
  {
    if |name| > NAME_CHUNK {
      var chunk, rest := name[..NAME_CHUNK], name[NAME_CHUNK..];
      JoinChunk(so, chunk, NameEntries(rest) + after);
      Assoc([NM(true, chunk)], NameEntries(rest), after);
      NameRoundTrip(so + chunk, rest, after);
      Two(name, NAME_CHUNK);
      Assoc(so, chunk, rest);
    }
  }

  lemma {:induction false} NameAmongOthers(before: seq<Entry>, name: Bytes, after: seq<Entry>)
    requires name != [] && forall e | e in before :: !e.NM?
    ensures JoinName([], before + NameEntries(name) + after) == Some(name)
  {
    if before == [] {
      NameRoundTrip([], name, after);
      assert before + NameEntries(name) + after == NameEntries(name) + after && [] + name == name;
    } else {
      assert before[0] in before;
      NameAmongOthers(before[1..], name, after);
      assert (before + NameEntries(name) + after)[1..] == before[1..] + NameEntries(name) + after;
    }
  }

  // ----- symbolic links -----

  const LINK_CHUNK := 248

  const SLASH: Byte := 0x2F

  predicate Special(segment: Bytes) { segment == DOT || segment == DOTDOT || segment == [] }

  /** `strings.Split` at the slashes. */
  function Split(path: Bytes): (r: seq<Bytes>)
    ensures r != []
  {
    if path == [] then [[]]
    else
      var rest := Split(path[1..]);
      if path[0] == SLASH then [[]] + rest else [[path[0]] + rest[0]] + rest[1..]
  }

  /** `strings.Join` with slashes. */
  function Join(segments: seq<Bytes>): Bytes {
    if segments == [] then [] else if |segments| == 1 then segments[0] else segments[0] + [SLASH] + Join(segments[1..])
  }

  lemma SplitPlain(b: Byte, path: Bytes)
    requires b != SLASH
    ensures var rest := Split(path); Split([b] + path) == [[b] + rest[0]] + rest[1..]
  {
    assert ([b] + path)[1..] == path;
  }

  lemma JoinCons(segment: Bytes, rest: seq<Bytes>)
    requires rest != []
    ensures Join([segment] + rest) == segment + [SLASH] + Join(rest)
  {
    assert ([segment] + rest)[1..] == rest;
  }

  lemma JoinGrow(b: Byte, rest: seq<Bytes>)
    requires rest != []
    ensures Join([[b] + rest[0]] + rest[1..]) == [b] + Join(rest)
  {
    if |rest| > 1 { JoinCons([b] + rest[0], rest[1..]); }
  }

  lemma {:induction false} JoinSplit(path: Bytes)
    ensures Join(Split(path)) == path
  {
    if path != [] {
      JoinSplit(path[1..]);
      if path[0] == SLASH { JoinCons([], Split(path[1..])); } else { JoinGrow(path[0], Split(path[1..])); }
    }
  }

  /** The segments are what lies between the slashes. */
  lemma {:induction false} SplitWhole(path: Bytes)
    ensures forall segment | segment in Split(path) :: 0x2F !in segment
  {
    if path != [] { SplitWhole(path[1..]); }
  }

  /** A component: its flags and text. */
  datatype Component = Component(flags: LinkFlags, text: Bytes)

  function TextComponents(segment: Bytes): (r: seq<Component>)
    ensures r != []
    decreases |segment|
  {
    if |segment| > LINK_CHUNK then [Component(SL_CONTINUE, segment[..LINK_CHUNK])] +
    TextComponents(segment[LINK_CHUNK..])
    else [Component(PLAIN, segment)]
  }

  /** `NewSymlinkComponent`: one flag for `.`, `..` and the root, else text chunks of at most 248 bytes. */
  function Components(segment: Bytes): (r: seq<Component>)
    ensures r != []
  {
    if segment == DOT then [Component(SL_CURRENT, [])]
    else if segment == DOTDOT then [Component(SL_PARENT, [])]
    else if segment == [] then [Component(SL_ROOT, [])]
    else TextComponents(segment)
  }

  function AllComponents(segments: seq<Bytes>): (r: seq<Component>)
    ensures segments != [] ==> r != []
  {
    if segments == [] then [] else Components(segments[0]) + AllComponents(segments[1..])
  }

  /** One SL entry per component, the final one not continued. */
  function LinkEntries(components: seq<Component>): seq<Entry> {
    if components == [] then []
    else [SL(|components| > 1, components[0].flags, components[0].text)] + LinkEntries(components[1..])
  }

  /** The entries of a link to the cleaned path `target`. */
  function Link(target: Bytes): seq<Entry> { LinkEntries(AllComponents(Split(target))) }

  /** The inner loop of `NewSymlink` and the marking of the final entry. */
  method Mark(components: seq<Component>) returns (entries: seq<Entry>)
    ensures entries == LinkEntries(components)
  {
    entries := [];
    for i := 0 to |components|
      invariant entries + LinkEntries(components[i..]) == LinkEntries(components)
    {
      assert components[i..][1..] == components[i + 1..];
      entries := entries + [SL(i < |components| - 1, components[i].flags, components[i].text)];
    }
    assert components[|components|..] == [] && entries + [] == entries;
  }

  lemma ComponentsStep(segments: seq<Bytes>, i: nat)
    requires i < |segments|
    ensures AllComponents(segments[i..]) == Components(segments[i]) + AllComponents(segments[i + 1..])
  {
    assert segments[i..][1..] == segments[i + 1..];
  }

  /** `NewSymlink` on a cleaned target. */
  method NewSymlink(target: Bytes) returns (r: Result<seq<Entry>>)
    ensures r.Ok? <==> forall s | s in Split(target) :: ValidName(s)
    ensures r.Ok? ==> r.value == Link(target)
  {
    var segments := Split(target);
    var components: seq<Component> := [];
    assert components + AllComponents(segments[0..]) == AllComponents(segments);
    for i := 0 to |segments|
      invariant forall j | 0 <= j < i :: ValidName(segments[j])
      invariant components + AllComponents(segments[i..]) == AllComponents(segments)
    {
      if !ValidName(segments[i]) {
        return Err;
      }
      ComponentsStep(segments, i);
      Assoc(components, Components(segments[i]), AllComponents(segments[i + 1..]));
      components := components + Components(segments[i]);
    }
    assert components + AllComponents([]) == components;
    var entries := Mark(components);
    r := Ok(entries);
  }

  /** The segments read back; a special component never ends the link. */
  function Segments(parts: seq<Bytes>, partial: Bytes, entries: seq<Entry>): Option<seq<Bytes>>
    decreases |entries|
  {
    if entries == [] then None
    else if !entries[0].SL? then Segments(parts, partial, entries[1..])
    else if entries[0].flags.Special() then Segments(parts + [Named(entries[0].flags)], partial, entries[1..])
    else
      var text := partial + entries[0].text;
      var open := entries[0].flags.continued;
      var parts' := if open then parts else parts + [text];
      if !entries[0].cont then Some(parts') else Segments(parts', if open then text else [], entries[1..])
  }

  /** The segment that a special component stands for. */
  function Named(flags: LinkFlags): Bytes {
    if flags.current then DOT else if flags.parent then DOTDOT else []
  }

  function JoinLink(entries: seq<Entry>): Option<Bytes> {
    var segments := Segments([], [], entries);
    if segments.Some? then Some(Join(segments.value)) else None
  }

  method DecodeSymlink(entries: seq<Entry>) returns (r: Option<Bytes>)
    ensures r == JoinLink(entries)
  {
    var parts: seq<Bytes>, partial: Bytes := [], [];
    for i := 0 to |entries|
      invariant Segments(parts, partial, entries[i..]) == Segments([], [], entries)
    {
      assert entries[i..][1..] == entries[i + 1..];
      if entries[i].SL? {
        var flags := entries[i].flags;
        if flags.current {
          parts := parts + [DOT];
          continue;
        }
        if flags.parent {
          parts := parts + [DOTDOT];
          continue;
        }
        if flags.root {
          parts := parts + [[]];
          continue;
        }
        partial := partial + entries[i].text;
        if !flags.continued {
          parts, partial := parts + [partial], [];
        }
        if !entries[i].cont {
          return Some(Join(parts));
        }
      }
    }
    r := None;
  }

  lemma {:induction false} LinkEntriesValid(components: seq<Component>)
    requires forall c | c in components :: if c.flags.Special() then c.text == [] else |c.text| <= LINK_CHUNK
    ensures forall e | e in LinkEntries(components) :: Valid(e) && e.SL?
  {
    if components != [] { LinkEntriesValid(components[1..]); }
  }

  lemma {:induction false} TextComponentsFit(segment: Bytes)
    ensures forall c | c in TextComponents(segment) :: !c.flags.Special() && |c.text| <= LINK_CHUNK
    decreases |segment|
  {
    if |segment| > LINK_CHUNK { TextComponentsFit(segment[LINK_CHUNK..]); }
  }

  lemma {:induction false} ComponentsFit(segments: seq<Bytes>)
    ensures forall c | c in AllComponents(segments) ::
      if c.flags.Special() then c.text == [] else |c.text| <= LINK_CHUNK
  {
    if segments != [] {
      TextComponentsFit(segments[0]);
      ComponentsFit(segments[1..]);
    }
  }

  /** Every entry of a link fits its one-byte length, so that it can be written and read back. */
  lemma LinkValid(target: Bytes)
    ensures forall e | e in Link(target) :: Valid(e) && e.SL?
  {
    ComponentsFit(Split(target));
    LinkEntriesValid(AllComponents(Split(target)));
  }

  /** What is left to read after the components of one segment. */
  ghost function Then(parts: seq<Bytes>, rest: seq<Component>, after: seq<Entry>): Option<seq<Bytes>> {
    if rest == [] then Some(parts) else Segments(parts, [], LinkEntries(rest) + after)
  }

  lemma {:induction false} TextFull(segment: Bytes)
    ensures forall c | c in TextComponents(segment) :: c.flags.continued ==> |c.text| == 0xF8
    decreases |segment|
  {
    if |segment| > LINK_CHUNK { TextFull(segment[LINK_CHUNK..]); }
  }

  lemma {:induction false} AllFull(segments: seq<Bytes>)
    ensures forall c | c in AllComponents(segments) :: c.flags.continued ==> !c.flags.Special() && |c.text| == 0xF8
  {
    if segments != [] {
      TextFull(segments[0]);
      TextComponentsFit(segments[0]);
      AllFull(segments[1..]);
    }
  }

  lemma {:induction false} EntriesFull(components: seq<Component>)
    requires forall c | c in components :: c.flags.continued ==> !c.flags.Special() && |c.text| == 0xF8
    ensures forall e | e in LinkEntries(components) :: e.SL? && (e.flags.continued ==> Len(e) == 0xFF)
  {
    if components != [] { EntriesFull(components[1..]); }
  }

  /** A segment is only cut where an entry is full. */
  lemma LinkFull(target: Bytes)
    ensures forall e | e in Link(target) :: e.SL? && (e.flags.continued ==> Len(e) == 0xFF)
  {
    AllFull(Split(target));
    EntriesFull(AllComponents(Split(target)));
  }

  lemma TextStep(parts: seq<Bytes>, partial: Bytes, c: Component, rest: seq<Component>, after: seq<Entry>)
    requires c.flags == PLAIN || (c.flags == SL_CONTINUE && rest != [])
    ensures Segments(parts, partial, LinkEntries([c] + rest) + after)
      == if c.flags == PLAIN then Then(parts + [partial + c.text], rest, after)
         else Segments(parts, partial + c.text, LinkEntries(rest) + after)
  {
    var all := LinkEntries([c] + rest) + after;
    assert ([c] + rest)[1..] == rest;
    assert all[1..] == LinkEntries(rest) + after;
  }

  lemma {:induction false} TextRead(parts: seq<Bytes>, partial: Bytes, segment: Bytes, rest: seq<Component>,
      after: seq<Entry>)
    ensures Segments(parts, partial, LinkEntries(TextComponents(segment) + rest) + after)
      == Then(parts + [partial + segment], rest, after)
    decreases |segment|
  {
    if |segment| > LINK_CHUNK {
      var chunk, more := segment[..LINK_CHUNK], segment[LINK_CHUNK..];
      Assoc([Component(SL_CONTINUE, chunk)], TextComponents(more), rest);
      TextStep(parts, partial, Component(SL_CONTINUE, chunk), TextComponents(more) + rest, after);
      TextRead(parts, partial + chunk, more, rest, after);
      Two(segment, LINK_CHUNK);
      Assoc(partial, chunk, more);
    } else {
      TextStep(parts, partial, Component(PLAIN, segment), rest, after);
    }
  }

  lemma SpecialRead(parts: seq<Bytes>, segment: Bytes, rest: seq<Component>, after: seq<Entry>)
    requires Special(segment)
    ensures Segments(parts, [], LinkEntries(Components(segment) + rest) + after)
      == Segments(parts + [segment], [], LinkEntries(rest) + after)
  {
    var cs := Components(segment) + rest;
    var all := LinkEntries(cs) + after;
    assert cs[1..] == rest;
    assert all[1..] == LinkEntries(rest) + after;
  }

  lemma {:induction false} SegmentsRead(parts: seq<Bytes>, segments: seq<Bytes>, after: seq<Entry>)
    requires segments != []
    ensures Segments(parts, [], LinkEntries(AllComponents(segments)) + after)
      == if Special(segments[|segments| - 1]) then Segments(parts + segments, [], after) else Some(parts + segments)
    decreases |segments|
  {
    var head, tail := segments[0], segments[1..];
    var rest := AllComponents(tail);
    if Special(head) {
      SpecialRead(parts, head, rest, after);
    } else {
      TextRead(parts, [], head, rest, after);
      assert [] + head == head;
    }
    Two(segments, 1);
    Assoc(parts, [head], tail);
    assert segments[..1] == [head];
    if tail == [] {
      assert Components(head) + rest == AllComponents(segments);
      assert LinkEntries(rest) + after == after;
      assert parts + [head] == parts + segments;
    } else {
      SegmentsRead(parts + [head], tail, after);
    }
  }

  lemma {:induction false} NoLink(parts: seq<Bytes>, others: seq<Entry>, more: seq<Entry>)
    requires forall e | e in others :: !e.SL?
    ensures Segments(parts, [], others + more) == Segments(parts, [], more)
  {
    if others == [] {
      assert others + more == more;
    } else {
      assert others[0] in others && (others + more)[1..] == others[1..] + more;
      NoLink(parts, others[1..], more);
    }
  }

  /** A cleaned target is read back from among other entries exactly when its last segment
    is not `.`, `..` or empty; otherwise no link is found at all. */
  lemma LinkRoundTrip(before: seq<Entry>, target: Bytes, after: seq<Entry>)
    requires (forall e | e in before :: !e.SL?) && (forall e | e in after :: !e.SL?)
    ensures var segments := Split(target);
      JoinLink(before + Link(target) + after) == if Special(segments[|segments| - 1]) then None else Some(target)
  {
    SegmentsBack(before, Split(target), after);
    JoinSplit(target);
  }

  lemma SegmentsBack(before: seq<Entry>, segments: seq<Bytes>, after: seq<Entry>)
    requires (forall e | e in before :: !e.SL?) && (forall e | e in after :: !e.SL?)
    requires segments != []
    ensures Segments([], [], before + LinkEntries(AllComponents(segments)) + after)
      == if Special(segments[|segments| - 1]) then None else Some(segments)
  {
    var link := LinkEntries(AllComponents(segments));
    NoLink([], before, link + after);
    assert before + link + after == before + (link + after);
    SegmentsRead([], segments, after);
    assert [] + segments == segments;
    NothingAfter(segments, after);
  }

  lemma NothingAfter(parts: seq<Bytes>, after: seq<Entry>)
    requires forall e | e in after :: !e.SL?
    ensures Segments(parts, [], after) == None
  {
    NoLink(parts, after, []);
    assert after + [] == after;
  }

  /** A link to `..` is written and then not found. */
  lemma ParentLinkIsLost()
    ensures JoinLink(Link(DOTDOT)) == None
  {
    SplitPlain(0x2E, []);
    SplitPlain(0x2E, DOT);
    assert [0x2E] + DOT == DOTDOT && [0x2E] + [] == DOT;
    LinkRoundTrip([], DOTDOT, []);
    assert [] + Link(DOTDOT) + [] == Link(DOTDOT);
  }
}
