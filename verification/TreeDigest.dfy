// The digest of a runtime archive: the bytes the release script hashes, and the
// bytes the installer hashes after extraction.

module ArchiveEntries {
  import opened Wrappers
  import opened Text

  datatype Kind =
    | Directory | SymbolicLink(target: string) | HardLink(target: string) | Regular(content: string) | Special

  datatype Member = Member(name: string, kind: Kind)

  datatype Error = UnexpectedType(name: string) | MissingTarget(name: string)

  /** The hexadecimal SHA-256 of a content. */
  type Hash = string -> string

  type Entries = map<string, string>

  /** `removeprefix("./")` */
  function StripDot(name: string): string {
    if HasPrefix(name, "./") then name[2..] else name
  }

  predicate Skipped(m: Member) {
    m.kind.Directory? || StripDot(m.name) == ""
  }

  /** The last of the first `n` members stored under `name`. */
  function Latest(members: seq<Member>, n: nat, name: string): (r: Option<nat>)
    requires n <= |members|
    ensures r.Some? ==> r.value < n && !Skipped(members[r.value]) && StripDot(members[r.value].name) == name
    ensures r.Some? ==> forall k :: r.value < k < n && !Skipped(members[k]) ==> StripDot(members[k].name) != name
    ensures r.None? ==> forall k :: 0 <= k < n && !Skipped(members[k]) ==> StripDot(members[k].name) != name
  {
    if n == 0 then None
    else if !Skipped(members[n - 1]) && StripDot(members[n - 1].name) == name then Some(n - 1)
    else Latest(members, n - 1, name)
  }

  /** The script stops at member `i`. */
  predicate Faulty(members: seq<Member>, i: nat)
    requires i < |members|
  {
    !Skipped(members[i]) &&
    (members[i].kind.Special?
     || (members[i].kind.HardLink? && Latest(members, i, StripDot(members[i].kind.target)).None?))
  }

  ghost predicate Readable(members: seq<Member>, n: nat)
    requires n <= |members|
  {
    forall i :: 0 <= i < n ==> !Faulty(members, i)
  }

  /** What a stored member stands for: a hard link for whatever its target stood for by then. */
  ghost function ValueOf(members: seq<Member>, i: nat, hash: Hash): string
    requires i < |members| && !Skipped(members[i]) && Readable(members, i + 1)
    decreases i
  {
    assert !Faulty(members, i);
    match members[i].kind
    case SymbolicLink(target) => "link:" + target
    case Regular(content) => hash(content)
    case HardLink(target) => ValueOf(members, Latest(members, i, StripDot(target)).value, hash)
  }

  /** The last member of each name decides its value. */
  ghost predicate Holds(entries: Entries, members: seq<Member>, n: nat, hash: Hash)
    requires n <= |members| && Readable(members, n)
  {
    forall name ::
      && (name in entries <==> Latest(members, n, name).Some?)
      && (name in entries ==> entries[name] == ValueOf(members, Latest(members, n, name).value, hash))
  }

  /** The error is that of the first member at fault. */
  ghost predicate FirstFault(members: seq<Member>, error: Error) {
    exists i :: 0 <= i < |members| && Readable(members, i) && Faulty(members, i) && FaultAt(members[i], error)
  }

  ghost predicate FaultAt(m: Member, error: Error) {
    error == match m.kind
      case HardLink(target) => MissingTarget(StripDot(target))
      case _ => UnexpectedType(m.name)
  }

  /** Storing the next member, unless it is skipped. */
  lemma HoldsNext(entries: Entries, members: seq<Member>, i: nat, hash: Hash)
    requires i < |members| && Readable(members, i + 1) && Holds(entries, members, i, hash)
    ensures var m := members[i];
      var next := if Skipped(m) then entries else entries[StripDot(m.name) := ValueOf(members, i, hash)];
      Holds(next, members, i + 1, hash)
  {
  }

  /** A hard link takes what its target's name holds, and is at fault when that name holds nothing. */
  lemma LinkTarget(entries: Entries, members: seq<Member>, i: nat, hash: Hash)
    requires i < |members| && Readable(members, i) && Holds(entries, members, i, hash)
    requires !Skipped(members[i]) && members[i].kind.HardLink?
    ensures var target := StripDot(members[i].kind.target);
      && (Faulty(members, i) <==> target !in entries)
      && (target in entries ==> Readable(members, i + 1) && entries[target] == ValueOf(members, i, hash))
  {
  }

  /** No later stored member has the name of this one. */
  ghost predicate LastOfItsName(members: seq<Member>, i: nat) {
    && i < |members| && !Skipped(members[i])
    && forall k :: i < k < |members| && !Skipped(members[k]) ==> StripDot(members[k].name) != StripDot(members[i].name)
  }

  /** The last member of a name is stored by its kind. */
  ghost predicate StoredByKind(entries: Entries, m: Member, hash: Hash) {
    var name := StripDot(m.name);
    name in entries && match m.kind
      case SymbolicLink(target) => entries[name] == "link:" + target
      case Regular(content) => entries[name] == hash(content)
      case HardLink(_) => true
      case _ => false
  }

  lemma LastIsStored(entries: Entries, members: seq<Member>, i: nat, hash: Hash)
    requires Readable(members, |members|) && Holds(entries, members, |members|, hash) && LastOfItsName(members, i)
    ensures StoredByKind(entries, members[i], hash)
  {
    assert Latest(members, |members|, StripDot(members[i].name)) == Some(i);
    assert !Faulty(members, i);
  }

  /** Some member that is not a directory has the name. */
  ghost predicate IsNamed(members: seq<Member>, name: string) {
    exists i :: 0 <= i < |members| && !members[i].kind.Directory? && StripDot(members[i].name) == name
  }

  lemma EntryIsNamed(entries: Entries, members: seq<Member>, name: string, hash: Hash)
    requires Readable(members, |members|) && Holds(entries, members, |members|, hash) && name in entries
    ensures name != "" && IsNamed(members, name)
  {
    var i := Latest(members, |members|, name).value;
    assert !members[i].kind.Directory? && StripDot(members[i].name) == name;
  }

  method TarEntries(members: seq<Member>, hash: Hash) returns (r: Result<Entries, Error>)
    ensures r.Ok? ==> Readable(members, |members|) && Holds(r.value, members, |members|, hash)
    ensures r.Ok? ==> forall i: nat :: LastOfItsName(members, i) ==> StoredByKind(r.value, members[i], hash)
    ensures r.Ok? ==> forall name :: name in r.value ==> name != "" && IsNamed(members, name)
    ensures r.Err? ==> FirstFault(members, r.error)
  {
    r := ReadMembers(members, hash);
    if r.Ok? {
      forall name | name in r.value ensures name != "" && IsNamed(members, name) {
        EntryIsNamed(r.value, members, name, hash);
      }
      forall i: nat | LastOfItsName(members, i) ensures StoredByKind(r.value, members[i], hash) {
        LastIsStored(r.value, members, i, hash);
      }
    }
  }

  /** The script's loop over the members. */
  method ReadMembers(members: seq<Member>, hash: Hash) returns (r: Result<Entries, Error>)
    ensures r.Ok? ==> Readable(members, |members|) && Holds(r.value, members, |members|, hash)
    ensures r.Err? ==> FirstFault(members, r.error)
  {
    var hashes: Entries := map[];
    for i := 0 to |members|
      invariant Readable(members, i) && Holds(hashes, members, i, hash)
    {
      var m := members[i];
      var name := StripDot(m.name);
      if m.kind.Directory? || name == "" {
        HoldsNext(hashes, members, i, hash);
        continue;
      }
      match m.kind
      case SymbolicLink(target) =>
        HoldsNext(hashes, members, i, hash);
        hashes := hashes[name := "link:" + target];
      case HardLink(target) =>
        LinkTarget(hashes, members, i, hash);
        if StripDot(target) !in hashes {
          return Err(MissingTarget(StripDot(target)));
        }
        HoldsNext(hashes, members, i, hash);
        hashes := hashes[name := hashes[StripDot(target)]];
      case Regular(content) =>
        HoldsNext(hashes, members, i, hash);
        hashes := hashes[name := hash(content)];
      case Special =>
        return Err(UnexpectedType(m.name));
    }
    return Ok(hashes);
  }

  /** The members that are stored have distinct names. */
  ghost predicate DistinctNames(members: seq<Member>) {
    forall i, j :: 0 <= i < j < |members| && !Skipped(members[i]) && !Skipped(members[j]) ==>
      StripDot(members[i].name) != StripDot(members[j].name)
  }

  lemma PlaceIn(m: Member, members: seq<Member>, others: seq<Member>) returns (k: nat)
    requires multiset(members) == multiset(others) && m in members
    ensures k < |others| && others[k] == m
  {
    assert m in multiset(members);
    assert m in multiset(others);
    k :| 0 <= k < |others| && others[k] == m;
  }

  /** A member keeps its value in another order, a hard link as well: in each order its target is the
      one member of that name, and comes first. */
  lemma {:induction false} SameValue(members: seq<Member>, others: seq<Member>, i: nat, j: nat, hash: Hash)
    requires multiset(members) == multiset(others) && DistinctNames(members) && DistinctNames(others)
    requires Readable(members, |members|) && Readable(others, |others|)
    requires i < |members| && j < |others| && members[i] == others[j] && !Skipped(members[i])
    ensures ValueOf(members, i, hash) == ValueOf(others, j, hash)
    decreases i
  {
    assert !Faulty(members, i) && !Faulty(others, j);
    if members[i].kind.HardLink? {
      var name := StripDot(members[i].kind.target);
      var source, place := Latest(members, i, name).value, Latest(others, j, name).value;
      var k := PlaceIn(members[source], members, others);
      assert k == place;
      SameValue(members, others, source, place, hash);
    }
  }

  lemma StoredIn(members: seq<Member>, others: seq<Member>, name: string)
    requires multiset(members) == multiset(others) && DistinctNames(members) && DistinctNames(others)
    requires Latest(members, |members|, name).Some?
    ensures Latest(others, |others|, name).Some?
    ensures others[Latest(others, |others|, name).value] == members[Latest(members, |members|, name).value]
  {
    var k := PlaceIn(members[Latest(members, |members|, name).value], members, others);
    assert Latest(others, |others|, name).Some?;
  }

  /** Two readable archives of the same members, each name stored once, hold the same entries. */
  lemma OrderDoesNotMatter(members: seq<Member>, others: seq<Member>, entries: Entries, entries': Entries, hash: Hash)
    requires multiset(members) == multiset(others) && DistinctNames(members) && DistinctNames(others)
    requires Readable(members, |members|) && Holds(entries, members, |members|, hash)
    requires Readable(others, |others|) && Holds(entries', others, |others|, hash)
    ensures entries == entries'
  {
    forall name ensures name in entries <==> name in entries' {
      if name in entries {
        StoredIn(members, others, name);
      } else if name in entries' {
        StoredIn(others, members, name);
      }
    }
    forall name | name in entries ensures entries[name] == entries'[name] {
      StoredIn(members, others, name);
      var i, j := Latest(members, |members|, name).value, Latest(others, |others|, name).value;
      SameValue(members, others, i, j, hash);
    }
  }

  // ----- zip archives -----

  /** A zip member is a directory or a file, and its name is taken as it is. */
  datatype ZipMember = ZipMember(name: string, directory: bool, content: string)

  function ZipEntries(infos: seq<ZipMember>, hash: Hash): Entries {
    if infos == [] then map[]
    else
      var last := infos[|infos| - 1];
      var before := ZipEntries(infos[..|infos| - 1], hash);
      if last.directory then before else before[last.name := hash(last.content)]
  }

  function AsTar(infos: seq<ZipMember>): seq<Member> {
    if infos == [] then []
    else
      var last := infos[|infos| - 1];
      AsTar(infos[..|infos| - 1]) + [Member(last.name, if last.directory then Directory else Regular(last.content))]
  }

  lemma {:induction false} AsTarIs(infos: seq<ZipMember>)
    ensures |AsTar(infos)| == |infos|
    ensures forall k :: 0 <= k < |infos| ==>
      AsTar(infos)[k] == Member(infos[k].name, if infos[k].directory then Directory else Regular(infos[k].content))
  {
    if infos != [] {
      AsTarIs(infos[..|infos| - 1]);
    }
  }

  lemma {:induction false} LatestOfPrefix(members: seq<Member>, more: seq<Member>, n: nat, name: string)
    requires n <= |members|
    ensures Latest(members + more, n, name) == Latest(members, n, name)
  {
    if n > 0 {
      assert (members + more)[n - 1] == members[n - 1];
      LatestOfPrefix(members, more, n - 1, name);
    }
  }

  /** A zip whose names carry no leading `./` holds what the same files hold in a tarball. */
  lemma {:induction false} ZipMatchesTar(infos: seq<ZipMember>, hash: Hash)
    requires forall z :: z in infos ==> z.name != "" && !HasPrefix(z.name, "./")
    ensures |AsTar(infos)| == |infos| && Readable(AsTar(infos), |infos|)
    ensures Holds(ZipEntries(infos, hash), AsTar(infos), |infos|, hash)
  {
    AsTarIs(infos);
    if infos != [] {
      var n, front := |infos| - 1, infos[..|infos| - 1];
      ZipMatchesTar(front, hash);
      AsTarIs(front);
      var members, last := AsTar(infos), infos[n];
      assert last in infos && members == AsTar(front) + [members[n]];
      forall name
        ensures Latest(members, n + 1, name)
             == if !last.directory && name == last.name then Some(n) else Latest(AsTar(front), n, name)
      {
        LatestOfPrefix(AsTar(front), [members[n]], n, name);
      }
      var entries := ZipEntries(infos, hash);
      forall name | name in entries
        ensures entries[name] == ValueOf(members, Latest(members, n + 1, name).value, hash)
      {
        var i := Latest(members, n + 1, name).value;
        assert !infos[i].directory;
      }
    }
  }
}

module TreeDigest {
  import opened Wrappers
  import opened Text
  import opened StringOrder
  import opened StableSort
  import opened ArchiveEntries

  datatype Line = Line(name: string, value: string)

  const NUL: char := 0 as char

  function Encode(lines: seq<Line>): string {
    if lines == [] then "" else lines[0].name + [NUL] + lines[0].value + "\n" + Encode(lines[1..])
  }

  function LinesOf(entries: Entries, names: seq<string>): seq<Line>
    requires forall name :: name in names ==> name in entries
  {
    if names == [] then [] else [Line(names[0], entries[names[0]])] + LinesOf(entries, names[1..])
  }

  function SortedLines(entries: Entries): seq<Line> {
    SortedKeysAscend(entries.Keys);
    LinesOf(entries, SortedKeys(entries.Keys))
  }

  lemma {:induction false} EncodeAppend(lines: seq<Line>, last: Line)
    ensures Encode(lines + [last]) == Encode(lines) + (last.name + [NUL] + last.value + "\n")
  {
    if lines == [] {
      assert [last][1..] == [];
    } else {
      assert (lines + [last])[1..] == lines[1..] + [last];
      EncodeAppend(lines[1..], last);
    }
  }

  lemma {:induction false} LinesAt(entries: Entries, names: seq<string>)
    requires forall name :: name in names ==> name in entries
    ensures |LinesOf(entries, names)| == |names|
    ensures forall k :: 0 <= k < |names| ==> LinesOf(entries, names)[k] == Line(names[k], entries[names[k]])
  {
    if names != [] {
      LinesAt(entries, names[1..]);
    }
  }

  lemma EncodeNext(lines: seq<Line>, i: nat)
    requires i < |lines|
    ensures Encode(lines[..i + 1]) == Encode(lines[..i]) + (lines[i].name + [NUL] + lines[i].value + "\n")
  {
    EncodeAppend(lines[..i], lines[i]);
    assert lines[..i + 1] == lines[..i] + [lines[i]];
  }

  /** The script's loop: what the digest is fed, joined. */
  method TreeBytes(entries: Entries) returns (bytes: string)
    ensures bytes == Encode(SortedLines(entries))
  {
    bytes := "";
    var names := SortedKeys(entries.Keys);
    ghost var lines := SortedLines(entries);
    SortedKeysAscend(entries.Keys);
    LinesAt(entries, names);
    for i := 0 to |names|
      invariant bytes == Encode(lines[..i])
    {
      EncodeNext(lines, i);
      assert lines[i] == Line(names[i], entries[names[i]]);
      bytes := bytes + (names[i] + [NUL] + entries[names[i]] + "\n");
    }
    assert lines[..|names|] == lines;
  }

  // ----- decoding -----

  /** The first place of `c`, or the end. */
  function Find(s: string, c: char): (i: nat)
    ensures i <= |s| && (i < |s| ==> s[i] == c)
    ensures forall k :: 0 <= k < i ==> s[k] != c
  {
    if s == "" || s[0] == c then 0 else 1 + Find(s[1..], c)
  }

  function Decode(bytes: string): Option<seq<Line>>
    decreases |bytes|
  {
    if bytes == "" then Some([])
    else
      var i := Find(bytes, NUL);
      if i == |bytes| then None
      else
        var rest := bytes[i + 1..];
        var j := Find(rest, '\n');
        if j == |rest| then None
        else
          match Decode(rest[j + 1..])
          case None => None
          case Some(lines) => Some([Line(bytes[..i], rest[..j])] + lines)
  }

  predicate Clean(line: Line) {
    NUL !in line.name && '\n' !in line.value
  }

  lemma {:induction false} FindIn(before: string, c: char, after: string)
    requires c !in before
    ensures Find(before + [c] + after, c) == |before|
  {
    var s := before + [c] + after;
    if before != "" {
      assert before[0] in before && s[0] == before[0];
      assert s[1..] == before[1..] + [c] + after;
      FindIn(before[1..], c, after);
    }
  }

  lemma DecodeStep(bytes: string, name: string, value: string, tail: string)
    requires Find(bytes, NUL) == |name| < |bytes| && bytes[..|name|] == name
    requires var rest := bytes[|name| + 1..];
      Find(rest, '\n') == |value| < |rest| && rest[..|value|] == value && rest[|value| + 1..] == tail
    ensures Decode(bytes) == Prepended(Line(name, value), Decode(tail))
  {
  }

  function Prepended(l: Line, lines: Option<seq<Line>>): Option<seq<Line>> {
    if lines.None? then None else Some([l] + lines.value)
  }

  lemma DecodeLine(name: string, value: string, tail: string)
    requires Clean(Line(name, value))
    ensures Decode(name + [NUL] + value + "\n" + tail) == Prepended(Line(name, value), Decode(tail))
  {
    var bytes, rest := name + [NUL] + value + "\n" + tail, value + ['\n'] + tail;
    assert bytes == name + [NUL] + rest;
    CutAt(name, NUL, rest);
    CutAt(value, '\n', tail);
    DecodeStep(bytes, name, value, tail);
  }

  lemma {:induction false} FindEarly(before: string, c: char, after: string)
    requires c in before
    ensures Find(before + after, c) < |before|
  {
    var s := before + after;
    if before[0] != c {
      assert s[1..] == before[1..] + after;
      FindEarly(before[1..], c, after);
    }
  }

  /** The first line read ends at the first NUL and the first line feed after it. */
  lemma FirstDecoded(bytes: string)
    requires bytes != "" && Decode(bytes).Some?
    ensures var i := Find(bytes, NUL);
      && i < |bytes|
      && Decode(bytes).value != []
      && Decode(bytes).value[0] == Line(bytes[..i], bytes[i + 1..][..Find(bytes[i + 1..], '\n')])
  {
  }

  /** A line that is not clean is cut short when it is read. */
  lemma UncleanLine(name: string, value: string, tail: string)
    requires !Clean(Line(name, value))
    ensures var d := Decode(name + [NUL] + value + "\n" + tail);
      d.Some? ==> d.value != [] && d.value[0] != Line(name, value)
  {
    var bytes, rest := name + [NUL] + value + "\n" + tail, value + ("\n" + tail);
    assert bytes == name + ([NUL] + rest) && bytes == name + [NUL] + rest;
    if NUL in name {
      FindEarly(name, NUL, [NUL] + rest);
    } else {
      CutAt(name, NUL, rest);
      FindEarly(value, '\n', "\n" + tail);
    }
    if Decode(bytes).Some? {
      FirstDecoded(bytes);
    }
  }

  lemma CutAt(before: string, c: char, after: string)
    requires c !in before
    ensures var s := before + [c] + after;
      Find(s, c) == |before| < |s| && s[..|before|] == before && s[|before| + 1..] == after
  {
    FindIn(before, c, after);
  }

  lemma EncodeCons(lines: seq<Line>)
    requires lines != []
    ensures Encode(lines) == lines[0].name + [NUL] + lines[0].value + "\n" + Encode(lines[1..])
    ensures lines == [Line(lines[0].name, lines[0].value)] + lines[1..]
  {
  }

  /** The lines come back from the bytes exactly when no name holds a NUL and no value a line feed. */
  lemma {:induction false} DecodeOfEncodeExactly(lines: seq<Line>)
    ensures Decode(Encode(lines)) == Some(lines) <==> forall l :: l in lines ==> Clean(l)
  {
    if lines != [] {
      DecodeOfEncodeExactly(lines[1..]);
      EncodeCons(lines);
      HeadAndTail(lines);
      if Clean(lines[0]) {
        DecodeLine(lines[0].name, lines[0].value, Encode(lines[1..]));
        PrependedIs(lines[0], Decode(Encode(lines[1..])), lines[1..]);
      } else {
        UncleanLine(lines[0].name, lines[0].value, Encode(lines[1..]));
      }
    }
  }

  lemma HeadAndTail(lines: seq<Line>)
    requires lines != []
    ensures forall l :: l in lines <==> l == lines[0] || l in lines[1..]
  {
  }

  lemma PrependedIs(l: Line, read: Option<seq<Line>>, lines: seq<Line>)
    ensures Prepended(l, read) == Some([l] + lines) <==> read == Some(lines)
  {
    if read.Some? && [l] + read.value == [l] + lines {
      assert read.value == ([l] + read.value)[1..] == ([l] + lines)[1..] == lines;
    }
  }

  predicate CleanEntries(entries: Entries) {
    forall name | name in entries :: Clean(Line(name, entries[name]))
  }

  lemma SortedLinesAre(entries: Entries)
    ensures forall l :: l in SortedLines(entries) <==> l.name in entries && entries[l.name] == l.value
  {
    var names := SortedKeys(entries.Keys);
    SortedKeysAscend(entries.Keys);
    LinesAt(entries, names);
    forall l: Line | l.name in entries && entries[l.name] == l.value ensures l in SortedLines(entries) {
      assert l.name in names;
      var k :| 0 <= k < |names| && names[k] == l.name;
      assert SortedLines(entries)[k] == l;
    }
    forall l: Line | l in SortedLines(entries) ensures l.name in entries && entries[l.name] == l.value {
      var k :| 0 <= k < |names| && SortedLines(entries)[k] == l;
      assert names[k] in names;
    }
  }

  lemma SameLinesSameEntries(a: Entries, b: Entries)
    requires SortedLines(a) == SortedLines(b)
    ensures a == b
  {
    SortedLinesAre(a);
    SortedLinesAre(b);
    forall name ensures name in a <==> name in b {
      assert name in a ==> Line(name, a[name]) in SortedLines(b);
      assert name in b ==> Line(name, b[name]) in SortedLines(a);
    }
    forall name | name in a ensures a[name] == b[name] {
      assert Line(name, a[name]) in SortedLines(b);
    }
  }

  lemma SortedLinesAreClean(entries: Entries)
    ensures (forall l :: l in SortedLines(entries) ==> Clean(l)) <==> CleanEntries(entries)
  {
    SortedLinesAre(entries);
    forall name | name in entries ensures Line(name, entries[name]) in SortedLines(entries) {
      assert Line(name, entries[name]).name == name;
    }
  }

  /** A tree's bytes read back as its entries exactly when the entries are clean. */
  lemma TreeReadsBackExactly(entries: Entries)
    ensures Decode(Encode(SortedLines(entries))) == Some(SortedLines(entries)) <==> CleanEntries(entries)
  {
    SortedLinesAreClean(entries);
    DecodeOfEncodeExactly(SortedLines(entries));
  }

  /** Different entries are hashed from different bytes. */
  lemma EncodingIsInjective(a: Entries, b: Entries)
    requires CleanEntries(a) && CleanEntries(b)
    ensures Encode(SortedLines(a)) == Encode(SortedLines(b)) <==> a == b
  {
    SortedLinesAreClean(a);
    SortedLinesAreClean(b);
    DecodeOfEncodeExactly(SortedLines(a));
    DecodeOfEncodeExactly(SortedLines(b));
    if Encode(SortedLines(a)) == Encode(SortedLines(b)) {
      SameLinesSameEntries(a, b);
    }
  }

  /** A line feed at the end of a value can as well begin the next name. */
  lemma LineFeedMoves(name: string, x: string, y: string, z: string, value: string)
    ensures Encode([Line(name, x + "\n" + y), Line(z, value)]) == Encode([Line(name, x), Line(y + "\n" + z, value)])
  {
    EncodeTwo(Line(name, x + "\n" + y), Line(z, value));
    EncodeTwo(Line(name, x), Line(y + "\n" + z, value));
    var end := [NUL] + value + "\n";
    assert name + [NUL] + (x + "\n" + y) + "\n" + (z + end) == name + [NUL] + x + "\n" + (y + "\n" + z + end);
    assert z + end == z + [NUL] + value + "\n" && y + "\n" + z + end == (y + "\n" + z) + [NUL] + value + "\n";
  }

  lemma EncodeTwo(first: Line, second: Line)
    ensures Encode([first, second])
         == first.name + [NUL] + first.value + "\n" + (second.name + [NUL] + second.value + "\n")
  {
    var line := second.name + [NUL] + second.value + "\n";
    EncodeCons([first, second]);
    EncodeCons([second]);
    assert [first, second][1..] == [second] && [second][1..] == [];
    assert Encode([second]) == line + "" == line;
  }

  lemma TwoSortedLines(entries: Entries, first: string, second: string)
    requires entries.Keys == {first, second} && first != second && LessEq(first, second)
    ensures SortedLines(entries) == [Line(first, entries[first]), Line(second, entries[second])]
  {
    SortedNames(entries, [first, second]);
    LinesAt(entries, [first, second]);
  }

  /** As every entry of a file system is. */
  predicate NulFree(entries: Entries) {
    forall name | name in entries :: NUL !in name && NUL !in entries[name]
  }

  /** A line feed in a link target can be read as the end of a shorter one: two trees, of names and
      values a file system can hold, are hashed from the same bytes. */
  lemma LineFeedHidesEntry(value: string)
    ensures var one: Entries := map["a" := "link:x" + "\n" + "y", "z" := value];
      var two: Entries := map["a" := "link:x", "y" + "\n" + "z" := value];
      && one != two && Encode(SortedLines(one)) == Encode(SortedLines(two))
      && (NUL !in value ==> NulFree(one) && NulFree(two))
  {
    var long, name := "link:x" + "\n" + "y", "y" + "\n" + "z";
    var one: Entries := map["a" := long, "z" := value];
    var two: Entries := map["a" := "link:x", name := value];
    assert "a"[0] < "z"[0] && "a"[0] < name[0];
    TwoSortedLines(one, "a", "z");
    TwoSortedLines(two, "a", name);
    LineFeedMoves("a", "link:x", "y", "z", value);
    assert |name| == 3 && "z" in one && "z" !in two;
  }

  /** An ascending list of the names is the sorted one. */
  lemma SortedNames(entries: Entries, names: seq<string>)
    requires Ascending(names) && forall name :: name in names <==> name in entries
    ensures SortedKeys(entries.Keys) == names
  {
    SortedKeysAscend(entries.Keys);
    AscendingUnique(SortedKeys(entries.Keys), names);
  }

  // ----- the installer's digest -----

  datatype Content = File(content: string) | Link(target: string)

  /** One entry of the extracted tree, by its path below the root. */
  datatype Found = Found(path: string, content: Content)

  function ValueOnDisk(content: Content, hash: Hash): string {
    match content
    case File(text) => hash(text)
    case Link(target) => "link:" + target
  }

  /** The installer's own files at the root are not part of the tree. */
  predicate Reserved(f: Found) {
    f.content.File? && (f.path == ".phonton-stage" || f.path == ".archive-sha256")
  }

  /** What the visit collects, in the order the file system lists it. */
  function Collected(tree: seq<Found>, hash: Hash): seq<Line> {
    if tree == [] then []
    else
      var last := tree[|tree| - 1];
      Collected(tree[..|tree| - 1], hash)
      + if Reserved(last) then [] else [Line(Normalize(last.path), ValueOnDisk(last.content, hash))]
  }

  predicate ByName(a: Line, b: Line) { LessEq(a.name, b.name) }

  /** `tree_sha256` up to the hash: visit, sort, feed. */
  method InstalledBytes(tree: seq<Found>, hash: Hash) returns (bytes: string)
    ensures bytes == Encode(Sort(Collected(tree, hash), ByName))
  {
    var paths: seq<Line> := [];
    for i := 0 to |tree|
      invariant paths == Collected(tree[..i], hash)
    {
      var f := tree[i];
      assert tree[..i + 1][..i] == tree[..i];
      if Reserved(f) {
        continue;
      }
      paths := paths + [Line(Normalize(f.path), ValueOnDisk(f.content, hash))];
    }
    assert tree[..|tree|] == tree;
    var sorted := Sort(paths, ByName);
    bytes := "";
    for i := 0 to |sorted|
      invariant bytes == Encode(sorted[..i])
    {
      EncodeNext(sorted, i);
      bytes := bytes + (sorted[i].name + [NUL] + sorted[i].value + "\n");
    }
    assert sorted[..|sorted|] == sorted;
  }

  function Names(lines: seq<Line>): (names: seq<string>)
    ensures |names| == |lines| && forall k :: 0 <= k < |lines| ==> names[k] == lines[k].name
  {
    if lines == [] then [] else [lines[0].name] + Names(lines[1..])
  }

  lemma SortedByName(lines: seq<Line>)
    ensures Sorted(Sort(lines, ByName), ByName) && multiset(Sort(lines, ByName)) == multiset(lines)
  {
    forall a: Line, b: Line ensures ByName(a, b) || ByName(b, a) {
      LessEqTotal(a.name, b.name);
    }
    forall a: Line, b: Line, c: Line | ByName(a, b) && ByName(b, c) ensures ByName(a, c) {
      LessEqTransitive(a.name, b.name, c.name);
    }
    SortSorts(lines, ByName);
    SortKeeps(lines, ByName);
  }

  /** The tree holds exactly the archive's entries, each path once. */
  ghost predicate Extracted(tree: seq<Found>, entries: Entries, hash: Hash) {
    && (forall i, j :: 0 <= i < j < |tree| ==> tree[i].path != tree[j].path)
    && (forall f :: f in tree ==> f.path in entries && entries[f.path] == ValueOnDisk(f.content, hash))
    && (forall name :: name in entries ==> exists f :: f in tree && f.path == name)
  }

  ghost predicate NoBackslash(tree: seq<Found>) {
    forall f :: f in tree ==> '\\' !in f.path
  }

  ghost predicate NoReserved(tree: seq<Found>) {
    forall f :: f in tree ==> !Reserved(f)
  }

  /** The tree's lines with nothing left out or rewritten. */
  function RawLines(tree: seq<Found>, hash: Hash): (lines: seq<Line>)
    ensures |lines| == |tree|
    ensures forall k :: 0 <= k < |tree| ==> lines[k] == Line(tree[k].path, ValueOnDisk(tree[k].content, hash))
  {
    if tree == [] then []
    else
      var last := tree[|tree| - 1];
      RawLines(tree[..|tree| - 1], hash) + [Line(last.path, ValueOnDisk(last.content, hash))]
  }

  lemma {:induction false} CollectedIsRaw(tree: seq<Found>, hash: Hash)
    requires NoBackslash(tree) && NoReserved(tree)
    ensures Collected(tree, hash) == RawLines(tree, hash)
  {
    if tree != [] {
      var last := tree[|tree| - 1];
      CollectedIsRaw(tree[..|tree| - 1], hash);
      NormalizeIs(last.path);
      assert last in tree;
    }
  }

  lemma RawAreEntries(tree: seq<Found>, entries: Entries, hash: Hash)
    requires Extracted(tree, entries, hash)
    ensures Distinct(RawLines(tree, hash))
    ensures forall l: Line :: l in RawLines(tree, hash) <==> l.name in entries && entries[l.name] == l.value
  {
    var lines := RawLines(tree, hash);
    forall l: Line | l in lines ensures l.name in entries && entries[l.name] == l.value {
      var k :| 0 <= k < |lines| && lines[k] == l;
      assert tree[k] in tree;
    }
    forall l: Line | l.name in entries && entries[l.name] == l.value ensures l in lines {
      var f :| f in tree && f.path == l.name;
      var k :| 0 <= k < |tree| && tree[k] == f;
      assert lines[k] == l;
    }
  }

  /** A sorted listing without repeats of the entries' lines is the script's. */
  lemma ListingIsSorted(lines: seq<Line>, entries: Entries)
    requires Sorted(lines, ByName) && Distinct(lines)
    requires forall l: Line :: l in lines <==> l.name in entries && entries[l.name] == l.value
    ensures lines == SortedLines(entries)
  {
    var names := Names(lines);
    forall i, j | 0 <= i < j < |names| ensures names[i] != names[j] && LessEq(names[i], names[j]) {
      assert lines[i] in lines && lines[j] in lines && ByName(lines[i], lines[j]);
    }
    forall name ensures name in names <==> name in entries {
      if name in names {
        var k :| 0 <= k < |names| && names[k] == name;
        assert lines[k] in lines;
      }
      if name in entries {
        var l := Line(name, entries[name]);
        assert l in lines;
        var k :| 0 <= k < |lines| && lines[k] == l;
        assert names[k] == name;
      }
    }
    SortedNames(entries, names);
    LinesAt(entries, names);
    forall k | 0 <= k < |lines| ensures lines[k] == SortedLines(entries)[k] {
      assert lines[k] in lines;
    }
  }

  /** Listed in any order, the tree's lines sort into the script's. */
  lemma RawSortToEntries(tree: seq<Found>, entries: Entries, hash: Hash)
    requires Extracted(tree, entries, hash)
    ensures Sort(RawLines(tree, hash), ByName) == SortedLines(entries)
  {
    var lines := RawLines(tree, hash);
    var sorted := Sort(lines, ByName);
    SortedByName(lines);
    RawAreEntries(tree, entries, hash);
    SameElements(lines, sorted);
    DistinctPermute(lines, sorted);
    ListingIsSorted(sorted, entries);
  }

  lemma InstalledAgrees(tree: seq<Found>, entries: Entries, hash: Hash)
    requires Extracted(tree, entries, hash) && NoBackslash(tree) && NoReserved(tree)
    ensures Sort(Collected(tree, hash), ByName) == SortedLines(entries)
  {
    CollectedIsRaw(tree, hash);
    RawSortToEntries(tree, entries, hash);
  }

  // ----- weighing the bytes -----

  /** Every character weighs one, a backslash two: what the installer drops or rewrites is missed. */
  function Weight(s: string): nat {
    if s == "" then 0 else (if s[0] == '\\' then 2 else 1) + Weight(s[1..])
  }

  lemma {:induction false} WeightOfSum(a: string, b: string)
    ensures Weight(a + b) == Weight(a) + Weight(b)
  {
    if a == "" {
      assert a + b == b;
    } else {
      assert (a + b)[1..] == a[1..] + b;
      WeightOfSum(a[1..], b);
    }
  }

  lemma {:induction false} NormalizeIsLighter(path: string)
    ensures Weight(Normalize(path)) <= Weight(path)
    ensures Weight(Normalize(path)) == Weight(path) ==> '\\' !in path
  {
    if path != "" {
      NormalizeIsLighter(path[1..]);
      assert path == [path[0]] + path[1..];
      assert Normalize(path)[1..] == Normalize(path[1..]);
    }
  }

  function LineWeight(l: Line): nat {
    Weight(l.name) + Weight(l.value) + 2
  }

  lemma WeightOfLine(l: Line)
    ensures Weight(l.name + [NUL] + l.value + "\n") == LineWeight(l)
  {
    WeightOfSum(l.name + [NUL] + l.value, "\n");
    WeightOfSum(l.name + [NUL], l.value);
    WeightOfSum(l.name, [NUL]);
  }

  lemma WeightOfFirst(lines: seq<Line>)
    requires lines != []
    ensures Weight(Encode(lines)) == LineWeight(lines[0]) + Weight(Encode(lines[1..]))
  {
    WeightOfLine(lines[0]);
    WeightOfSum(lines[0].name + [NUL] + lines[0].value + "\n", Encode(lines[1..]));
  }

  lemma WeightOfLast(lines: seq<Line>, last: Line)
    ensures Weight(Encode(lines + [last])) == Weight(Encode(lines)) + LineWeight(last)
  {
    WeightOfLine(last);
    EncodeAppend(lines, last);
    WeightOfSum(Encode(lines), last.name + [NUL] + last.value + "\n");
  }

  lemma {:induction false} InsertKeepsWeight(l: Line, lines: seq<Line>)
    ensures Weight(Encode(Insert(l, lines, ByName))) == LineWeight(l) + Weight(Encode(lines))
  {
    var more := Insert(l, lines, ByName);
    WeightOfFirst(more);
    if more == [l] + lines {
      assert more[1..] == lines;
    } else {
      InsertKeepsWeight(l, lines[1..]);
      WeightOfFirst(lines);
      assert more[1..] == Insert(l, lines[1..], ByName);
    }
  }

  lemma {:induction false} SortKeepsWeight(lines: seq<Line>)
    ensures Weight(Encode(Sort(lines, ByName))) == Weight(Encode(lines))
  {
    if lines != [] {
      SortKeepsWeight(lines[1..]);
      InsertKeepsWeight(lines[0], Sort(lines[1..], ByName));
      WeightOfFirst(lines);
    }
  }

  lemma WeightOfTree(front: seq<Found>, last: Found, hash: Hash)
    ensures var value := ValueOnDisk(last.content, hash);
      && Weight(Encode(RawLines(front + [last], hash)))
         == Weight(Encode(RawLines(front, hash))) + LineWeight(Line(last.path, value))
      && Weight(Encode(Collected(front + [last], hash)))
         == Weight(Encode(Collected(front, hash)))
            + if Reserved(last) then 0 else LineWeight(Line(Normalize(last.path), value))
  {
    var value := ValueOnDisk(last.content, hash);
    assert (front + [last])[..|front|] == front;
    WeightOfLast(RawLines(front, hash), Line(last.path, value));
    WeightOfLast(Collected(front, hash), Line(Normalize(last.path), value));
    assert Collected(front, hash) + [] == Collected(front, hash);
  }

  /** What the installer collects weighs as much as the whole tree only when it is the whole tree. */
  lemma {:induction false} CollectedIsLighter(tree: seq<Found>, hash: Hash)
    ensures var collected, whole := Weight(Encode(Collected(tree, hash))), Weight(Encode(RawLines(tree, hash)));
      collected <= whole && (collected == whole ==> NoBackslash(tree) && NoReserved(tree))
  {
    if tree != [] {
      var front, last := tree[..|tree| - 1], tree[|tree| - 1];
      assert tree == front + [last];
      CollectedIsLighter(front, hash);
      WeightOfTree(front, last, hash);
      NormalizeIsLighter(last.path);
    }
  }

  /** The installer and the script hash the same bytes exactly when no path has a backslash and
      the archive brings no file under the installer's own names. */
  lemma DigestsAgreeExactly(tree: seq<Found>, entries: Entries, hash: Hash)
    requires Extracted(tree, entries, hash)
    ensures Encode(Sort(Collected(tree, hash), ByName)) == Encode(SortedLines(entries))
            <==> NoBackslash(tree) && NoReserved(tree)
  {
    if NoBackslash(tree) && NoReserved(tree) {
      InstalledAgrees(tree, entries, hash);
    } else {
      RawSortToEntries(tree, entries, hash);
      SortKeepsWeight(Collected(tree, hash));
      SortKeepsWeight(RawLines(tree, hash));
      CollectedIsLighter(tree, hash);
    }
  }

  /** What a stored member leaves on disk: a hard link what its target left by then. */
  ghost function ContentOf(members: seq<Member>, i: nat): Content
    requires i < |members| && !Skipped(members[i]) && Readable(members, i + 1)
    decreases i
  {
    assert !Faulty(members, i);
    match members[i].kind
    case SymbolicLink(target) => Link(target)
    case Regular(content) => File(content)
    case HardLink(target) => ContentOf(members, Latest(members, i, StripDot(target)).value)
  }

  /** The installer computes of an extracted member what the script stores for it. */
  lemma {:induction false} DiskMatchesArchive(members: seq<Member>, i: nat, hash: Hash)
    requires i < |members| && !Skipped(members[i]) && Readable(members, i + 1)
    ensures ValueOnDisk(ContentOf(members, i), hash) == ValueOf(members, i, hash)
    decreases i
  {
    assert !Faulty(members, i);
    if members[i].kind.HardLink? {
      DiskMatchesArchive(members, Latest(members, i, StripDot(members[i].kind.target)).value, hash);
    }
  }

  /** The tree an archive extracts to: each stored name once, with what its last member leaves. */
  ghost predicate ExtractedFrom(tree: seq<Found>, members: seq<Member>)
    requires Readable(members, |members|)
  {
    && (forall i, j :: 0 <= i < j < |tree| ==> tree[i].path != tree[j].path)
    && (forall f :: f in tree ==>
          var last := Latest(members, |members|, f.path);
          last.Some? && f.content == ContentOf(members, last.value))
    && (forall name :: Latest(members, |members|, name).Some? ==> exists f :: f in tree && f.path == name)
  }

  /** For every archive the script reads, and the tree it extracts to. */
  lemma ArchiveDigestsAgreeExactly(members: seq<Member>, tree: seq<Found>, entries: Entries, hash: Hash)
    requires Readable(members, |members|) && Holds(entries, members, |members|, hash) && ExtractedFrom(tree, members)
    ensures Encode(Sort(Collected(tree, hash), ByName)) == Encode(SortedLines(entries))
            <==> NoBackslash(tree) && NoReserved(tree)
  {
    forall f | f in tree ensures f.path in entries && entries[f.path] == ValueOnDisk(f.content, hash) {
      DiskMatchesArchive(members, Latest(members, |members|, f.path).value, hash);
    }
    assert Extracted(tree, entries, hash);
    DigestsAgreeExactly(tree, entries, hash);
  }

  /** The tree of a single entry, and the entries of its archive. */
  ghost predicate OneEntryDiffers(path: string, content: Content, hash: Hash) {
    var tree, entries: Entries := [Found(path, content)], map[path := ValueOnDisk(content, hash)];
    && Extracted(tree, entries, hash)
    && Encode(Sort(Collected(tree, hash), ByName)) != Encode(SortedLines(entries))
  }

  /** A tree of one entry disagrees exactly when its path holds a backslash, or when it is a file named as
      one of the installer's own; a link of that name does not matter. */
  lemma DigestsCanDiffer(path: string, content: Content, hash: Hash)
    ensures OneEntryDiffers(path, content, hash)
       <==> '\\' in path || (content.File? && (path == ".archive-sha256" || path == ".phonton-stage"))
  {
    var f := Found(path, content);
    var tree, entries: Entries := [f], map[path := ValueOnDisk(content, hash)];
    assert f in tree && entries[path] == ValueOnDisk(f.content, hash);
    DigestsAgreeExactly(tree, entries, hash);
  }
}
