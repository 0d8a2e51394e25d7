/**
 The checksum file of cmd/hyperexport/validation.go: printing it from a map in any order,
 parsing it back, and verifying a directory against it.

 The export directory is a map from file names to entries; the hash is a parameter.
 */
module Checksums {
  import opened Wrappers

  const LIST_NAME := "checksums.txt"

  /** unicode.IsSpace. */
  predicate IsSpace(c: char) {
    || '\t' <= c <= '\r' || c == ' ' || c == '\U{85}' || c == '\U{A0}' || c == '\U{1680}'
    || '\U{2000}' <= c <= '\U{200A}' || c == '\U{2028}' || c == '\U{2029}' || c == '\U{202F}'
    || c == '\U{205F}' || c == '\U{3000}'
  }

  /** The 25 white space characters of Unicode. */
  lemma SpacesAre(c: char)
    ensures IsSpace(c) <==>
      var n := c as int;
      || 9 <= n <= 13 || n == 32 || n == 133 || n == 160 || n == 5760 || 8192 <= n <= 8202
      || n == 8232 || n == 8233 || n == 8239 || n == 8287 || n == 12288
  {
  }

  /** Non-empty and free of whitespace: what survives as one field of a line. */
  predicate Clean(s: string) { s != "" && forall i :: 0 <= i < |s| ==> !IsSpace(s[i]) }

  // ---------------------------------------------------------------- the text format

  /** strings.Split by newline. */
  function Lines(s: string): (r: seq<string>)
    ensures r != []
  {
    if s == "" then [""]
    else if s[0] == '\n' then [""] + Lines(s[1..])
    else var rest := Lines(s[1..]); [[s[0]] + rest[0]] + rest[1..]
  }

  function TrimLeft(s: string): string {
    if s != "" && IsSpace(s[0]) then TrimLeft(s[1..]) else s
  }

  function TrimRight(s: string): string {
    if s != "" && IsSpace(s[|s| - 1]) then TrimRight(s[..|s| - 1]) else s
  }

  function TrimSpace(s: string): string { TrimRight(TrimLeft(s)) }

  /** Length of the run of non-space characters at the start. */
  function WordLength(s: string): (n: nat)
    ensures n <= |s| && (forall i :: 0 <= i < n ==> !IsSpace(s[i])) && (n < |s| ==> IsSpace(s[n]))
  {
    if s == "" || IsSpace(s[0]) then 0 else 1 + WordLength(s[1..])
  }

  /** strings.Fields: the maximal runs of non-space characters. */
  function Fields(s: string): seq<string>
    decreases |s|
  {
    if s == "" then []
    else if IsSpace(s[0]) then Fields(s[1..])
    else var n := WordLength(s); [s[..n]] + Fields(s[n..])
  }

  /** What one line adds to the expected checksums. */
  function ParseLine(line: string, acc: map<string, string>): map<string, string> {
    var parts := Fields(TrimSpace(line));
    if |parts| < 2 then acc else acc[parts[1] := parts[0]]
  }

  function ParseLines(lines: seq<string>, acc: map<string, string>): map<string, string>
    decreases |lines|
  {
    if lines == [] then acc else ParseLines(lines[1..], ParseLine(lines[0], acc))
  }

  function Parse(content: string): map<string, string> { ParseLines(Lines(content), map[]) }

  function PrintLine(name: string, checksum: string): string { checksum + "  " + name }

  function Print(m: map<string, string>, order: seq<string>): string
    requires forall k :: k in order ==> k in m
  {
    if order == [] then "" else PrintLine(order[0], m[order[0]]) + ("\n" + Print(m, order[1..]))
  }

  /** Some order in which a range over the map visits its keys. */
  ghost predicate OrderOf(order: seq<string>, m: map<string, string>) {
    forall k :: k in order <==> k in m
  }

  method ParseChecksums(content: string) returns (expected: map<string, string>)
    ensures expected == Parse(content)
  {
    var lines := Lines(content);
    expected := map[];
    for i := 0 to |lines|
      invariant Parse(content) == ParseLines(lines[i..], expected)
    {
      var line := TrimSpace(lines[i]);
      assert lines[i..][1..] == lines[i + 1..];
      if line == "" {
        continue;
      }
      var parts := Fields(line);
      if |parts| < 2 {
        continue;
      }
      expected := expected[parts[1] := parts[0]];
    }
  }

  method SaveChecksumManifest(checksums: map<string, string>, order: seq<string>) returns (content: string)
    requires OrderOf(order, checksums)
    ensures content == Print(checksums, order)
  {
    content := "";
    for i := 0 to |order|
      invariant Print(checksums, order) == content + Print(checksums, order[i..])
    {
      assert order[i..][1..] == order[i + 1..];
      var line := checksums[order[i]] + "  " + order[i];
      assert content + (line + ("\n" + Print(checksums, order[i + 1..])))
        == content + line + "\n" + Print(checksums, order[i + 1..]);
      content := content + line + "\n";
    }
  }

  /** The format of sha256sum: checksum, two spaces, name, newline. */
  lemma PrintFormat(m: map<string, string>, name: string, order: seq<string>)
    requires name in m && forall k :: k in order ==> k in m
    ensures Print(m, []) == ""
    ensures Print(m, [name] + order) == m[name] + "  " + name + "\n" + Print(m, order)
  {
    var all := [name] + order;
    assert all[0] == name && all[1..] == order;
    assert PrintLine(name, m[name]) + ("\n" + Print(m, order)) == PrintLine(name, m[name]) + "\n" + Print(m, order);
  }

  // ---------------------------------------------------------------- round trip

  lemma {:induction false} LinesOfLine(line: string, rest: string)
    requires forall i :: 0 <= i < |line| ==> line[i] != '\n'
    ensures Lines(line + ("\n" + rest)) == [line] + Lines(rest)
  {
    var s := line + ("\n" + rest);
    if line == "" {
      assert s == "\n" + rest && s[1..] == rest;
    } else {
      LinesOfLine(line[1..], rest);
      assert s[1..] == line[1..] + ("\n" + rest);
      assert [line[0]] + line[1..] == line;
    }
  }

  lemma {:induction false} WordPrefix(word: string, rest: string)
    requires Clean(word) && (rest != "" ==> IsSpace(rest[0]))
    ensures WordLength(word + rest) == |word|
  {
    if |word| == 1 {
      assert (word + rest)[1..] == rest;
    } else {
      assert Clean(word[1..]) && (word + rest)[1..] == word[1..] + rest;
      WordPrefix(word[1..], rest);
    }
  }

  lemma FieldsOfWord(word: string)
    requires Clean(word)
    ensures Fields(word) == [word]
  {
    WordPrefix(word, "");
    assert word + "" == word && word[..|word|] == word && word[|word|..] == "";
  }

  /** A printed line reads back as its two fields. */
  lemma FieldsOfLine(name: string, checksum: string)
    requires Clean(name) && Clean(checksum)
    ensures Fields(TrimSpace(PrintLine(name, checksum))) == [checksum, name]
  {
    var gap := "  " + name;
    var line := PrintLine(name, checksum);
    assert line == checksum + gap;
    assert TrimSpace(line) == line by {
      assert line[0] == checksum[0] && line[|line| - 1] == name[|name| - 1];
    }
    hide TrimSpace;
    WordPrefix(checksum, gap);
    assert line[..|checksum|] == checksum && line[|checksum|..] == gap;
    assert gap[1..] == " " + name && gap[1..][1..] == name;
    FieldsOfWord(name);
    assert Fields(gap) == Fields(gap[1..]) == Fields(name);
  }

  ghost predicate AllClean(m: map<string, string>) {
    forall k :: k in m ==> Clean(k)
  }

  ghost predicate ChecksumsClean(m: map<string, string>) {
    forall k :: k in m ==> Clean(m[k])
  }

  /** The part of the map that an order covers. */
  ghost function Covered(m: map<string, string>, order: seq<string>): map<string, string>
    requires forall k :: k in order ==> k in m
  {
    map k | k in order :: m[k]
  }

  lemma CoveredStep(m: map<string, string>, order: seq<string>, acc: map<string, string>)
    requires order != [] && forall k :: k in order ==> k in m
    ensures acc[order[0] := m[order[0]]] + Covered(m, order[1..]) == acc + Covered(m, order)
  {
    assert order == [order[0]] + order[1..];
  }

  lemma NothingPrinted(acc: map<string, string>)
    ensures ParseLines(Lines(""), acc) == acc
  {
    assert Lines("") == [""] && [""][1..] == [];
    assert ParseLine("", acc) == acc;
  }

  lemma ParsePrintedLine(name: string, checksum: string, rest: string, acc: map<string, string>)
    requires Clean(name) && Clean(checksum)
    ensures ParseLines(Lines(PrintLine(name, checksum) + ("\n" + rest)), acc)
      == ParseLines(Lines(rest), acc[name := checksum])
  {
    var line := PrintLine(name, checksum);
    LinesOfLine(line, rest);
    FieldsOfLine(name, checksum);
    hide PrintLine, Fields, TrimSpace, Lines;
    assert ([line] + Lines(rest))[1..] == Lines(rest);
  }

  lemma {:induction false} ParsePrinted(m: map<string, string>, order: seq<string>, acc: map<string, string>)
    requires AllClean(m) && ChecksumsClean(m) && forall k :: k in order ==> k in m
    ensures ParseLines(Lines(Print(m, order)), acc) == acc + Covered(m, order)
  {
    hide ParseLines, Lines, PrintLine, Covered;
    if order == [] {
      NothingPrinted(acc);
      CoveredNone(m, acc);
    } else {
      var k := order[0];
      ParsePrintedLine(k, m[k], Print(m, order[1..]), acc);
      ParsePrinted(m, order[1..], acc[k := m[k]]);
      CoveredStep(m, order, acc);
    }
  }

  lemma CoveredNone(m: map<string, string>, acc: map<string, string>)
    ensures acc + Covered(m, []) == acc
  {
  }

  lemma {:induction false} FieldsClean(s: string)
    ensures forall f :: f in Fields(s) ==> Clean(f)
    decreases |s|
  {
    if s != "" {
      if IsSpace(s[0]) {
        FieldsClean(s[1..]);
      } else {
        FieldsClean(s[WordLength(s)..]);
      }
    }
  }

  lemma {:induction false} ParsedNamesClean(lines: seq<string>, acc: map<string, string>)
    requires AllClean(acc)
    ensures AllClean(ParseLines(lines, acc))
    decreases |lines|
  {
    if lines != [] {
      FieldsClean(TrimSpace(lines[0]));
      ParsedNamesClean(lines[1..], ParseLine(lines[0], acc));
    }
  }

  /**
   Round trip, whatever order the map is printed in: parsing the printed file gives the map
   back exactly when every name is non-empty and free of whitespace.
   */
  lemma RoundTripIff(m: map<string, string>, order: seq<string>)
    requires ChecksumsClean(m) && OrderOf(order, m)
    ensures Parse(Print(m, order)) == m <==> AllClean(m)
  {
    hide ParseLines, Lines, Print;
    ParsedNamesClean(Lines(Print(m, order)), map[]);
    if AllClean(m) {
      ParsePrinted(m, order, map[]);
      assert map[] + Covered(m, order) == m;
    }
  }

  /** So a name with a space does not come back. */
  lemma SpacedNameLost()
    ensures Parse(Print(map["a b" := "0"], ["a b"])) != map["a b" := "0"]
  {
    var m := map["a b" := "0"];
    assert IsSpace("a b"[1]) && Clean("0");
    RoundTripIff(m, ["a b"]);
    assert "a b" in m && !Clean("a b");
  }

  // ---------------------------------------------------------------- any list

  /** A word, a space and anything: the fields are the word and those of the rest. */
  lemma WordFirst(word: string, rest: string)
    requires Clean(word)
    ensures Fields(word + " " + rest) == [word] + Fields(rest)
    ensures Fields(word) == [word]
  {
    var s := word + " " + rest;
    assert s[0] == word[0] && word[..|word|] == word && word[|word|..] == "";
    assert s[|word|] == ' ' && IsSpace(' ');
    WordEnds(s, |word|);
    WordEnds(word, |word|);
    assert s[..|word|] == word;
    assert s[|word|..] == " " + rest && (" " + rest)[1..] == rest;
  }

  lemma {:induction false} WordEnds(s: string, n: nat)
    requires n <= |s| && (forall i :: 0 <= i < n ==> !IsSpace(s[i])) && (n < |s| ==> IsSpace(s[n]))
    ensures WordLength(s) == n
  {
    if n > 0 {
      WordEnds(s[1..], n - 1);
    }
  }

  lemma {:induction false} FieldsTrimLeft(s: string)
    ensures Fields(TrimLeft(s)) == Fields(s)
  {
    if s != "" && IsSpace(s[0]) {
      FieldsTrimLeft(s[1..]);
    }
  }

  lemma {:induction false} AllSpaces(s: string)
    requires forall i :: 0 <= i < |s| ==> IsSpace(s[i])
    ensures Fields(s) == []
  {
    if s != "" {
      AllSpaces(s[1..]);
    }
  }

  lemma FieldsSpace(s: string)
    requires s != "" && IsSpace(s[0])
    ensures Fields(s) == Fields(s[1..])
  {
  }

  lemma FieldsWord(s: string, n: nat)
    requires 0 < n <= |s| && (forall i :: 0 <= i < n ==> !IsSpace(s[i])) && (n < |s| ==> IsSpace(s[n]))
    ensures Fields(s) == [s[..n]] + Fields(s[n..])
  {
    WordEnds(s, n);
  }

  lemma {:induction false} FieldsDropLast(s: string)
    requires s != "" && IsSpace(s[|s| - 1])
    ensures Fields(s[..|s| - 1]) == Fields(s)
    decreases |s|
  {
    hide IsSpace, Fields, WordLength;
    var t := s[..|s| - 1];
    if |s| == 1 {
      FieldsSpace(s);
      assert t == "" && s[1..] == "";
    } else if IsSpace(s[0]) {
      FieldsSpace(s);
      FieldsSpace(t);
      FieldsDropLast(s[1..]);
      assert s[1..][..|s[1..]| - 1] == t[1..];
    } else {
      var n := WordLength(t);
      FieldsWord(t, n);
      FieldsWord(s, n);
      assert s[..n] == t[..n];
      assert s[n..][..|s[n..]| - 1] == t[n..];
      FieldsDropLast(s[n..]);
    }
  }

  lemma {:induction false} FieldsTrimRight(s: string)
    ensures Fields(TrimRight(s)) == Fields(s)
    decreases |s|
  {
    if s != "" && IsSpace(s[|s| - 1]) {
      FieldsTrimRight(s[..|s| - 1]);
      FieldsDropLast(s);
    }
  }

  /**
   What a line of any list says: the first field is the checksum of the file named by the
   second, whatever follows; a line of fewer fields says nothing.
   */
  lemma LineMeans(line: string, acc: map<string, string>)
    ensures ParseLine(line, acc) == if |Fields(line)| < 2 then acc else acc[Fields(line)[1] := Fields(line)[0]]
  {
    FieldsTrimLeft(line);
    FieldsTrimRight(TrimLeft(line));
    hide Fields, TrimLeft, TrimRight;
  }

  lemma ExtraFieldsIgnored(checksum: string, name: string, rest: string, acc: map<string, string>)
    requires Clean(checksum) && Clean(name)
    ensures ParseLine(checksum + " " + (name + " " + rest), acc) == acc[name := checksum]
    ensures ParseLine(checksum + " " + name, acc) == acc[name := checksum]
    ensures ParseLine(checksum, acc) == acc
  {
    WordFirst(checksum, name + " " + rest);
    WordFirst(name, rest);
    WordFirst(checksum, name);
    LineMeans(checksum + " " + (name + " " + rest), acc);
    LineMeans(checksum + " " + name, acc);
    LineMeans(checksum, acc);
    hide Fields, ParseLine;
  }

  /** Lines take effect in turn, so the last one for a name counts. */
  lemma {:induction false} LastLineCounts(lines: seq<string>, line: string, acc: map<string, string>)
    ensures ParseLines(lines + [line], acc) == ParseLine(line, ParseLines(lines, acc))
    decreases |lines|
  {
    hide ParseLine;
    if lines == [] {
      assert ([] + [line])[1..] == [] && ([] + [line])[0] == line;
      assert ParseLines([line], acc) == ParseLines([line][1..], ParseLine(line, acc));
    } else {
      LastLineCounts(lines[1..], line, ParseLine(lines[0], acc));
      assert (lines + [line])[1..] == lines[1..] + [line];
    }
  }

  // ---------------------------------------------------------------- directories

  datatype Entry = File(content: string) | Directory | Unreadable | Dangling

  type Dir = map<string, Entry>

  function Checksum(hash: string -> string, e: Entry): Option<string> {
    if e.File? then Some(hash(e.content)) else None
  }

  /** The checksums of all regular files; directories and dangling links are passed over. */
  function Computed(hash: string -> string, dir: Dir): map<string, string> {
    map k | k in dir && dir[k].File? :: hash(dir[k].content)
  }

  method ComputeExportChecksums(hash: string -> string, dir: Dir, listing: seq<string>)
    returns (r: Option<map<string, string>>)
    requires forall k :: k in listing <==> k in dir
    ensures r == None <==> exists k :: k in dir && dir[k] == Unreadable
    ensures r.Some? ==> r.value == Computed(hash, dir)
    ensures r.Some? ==> forall k :: k in r.value <==> k in dir && dir[k].File?
    ensures r.Some? ==> forall k :: k in r.value ==> r.value[k] == hash(dir[k].content)
  {
    var checksums: map<string, string> := map[];
    for i := 0 to |listing|
      invariant forall k :: k in listing[..i] ==> dir[k] != Unreadable
      invariant forall k :: k in checksums <==> k in listing[..i] && dir[k].File?
      invariant forall k :: k in checksums ==> checksums[k] == hash(dir[k].content)
    {
      var name := listing[i];
      assert name in listing && listing[..i + 1] == listing[..i] + [name];
      if dir[name] == Dangling || dir[name] == Directory {
        continue;
      }
      var checksum := Checksum(hash, dir[name]);
      if checksum == None {
        return None;
      }
      checksums := checksums[name := checksum.value];
    }
    assert listing[..|listing|] == listing;
    r := Some(checksums);
  }

  datatype Verdict = Verified | Failed | Missing

  function Check(hash: string -> string, dir: Dir, name: string, expected: string): Verdict {
    if name !in dir || dir[name] == Dangling then Missing
    else if Checksum(hash, dir[name]) == Some(expected) then Verified
    else Failed
  }

  /** Missing when there is no such file, verified when it has the expected hash, and otherwise failed. */
  lemma CheckMeans(hash: string -> string, dir: Dir, name: string, expected: string)
    ensures var v := Check(hash, dir, name, expected);
      && (v == Missing <==> name !in dir || dir[name] == Dangling)
      && (v == Verified <==> name in dir && dir[name].File? && hash(dir[name].content) == expected)
  {
  }

  datatype Report = NoList | ListUnreadable | ListEmpty | Checked(verified: nat, failed: nat, missing: nat)

  predicate Passed(r: Report) { r == NoList || (r.Checked? && r.failed == 0 && r.missing == 0) }

  /** The names among `done` that get verdict v. */
  ghost function NamesWith(hash: string -> string, dir: Dir, expected: map<string, string>, done: set<string>,
                           v: Verdict): set<string>
    requires done <= expected.Keys
  {
    set k | k in done && Check(hash, dir, k, expected[k]) == v
  }

  lemma NamesAre(hash: string -> string, dir: Dir, expected: map<string, string>, k: string)
    requires k in expected
    ensures k in NamesWith(hash, dir, expected, expected.Keys, Missing) <==> k !in dir || dir[k] == Dangling
    ensures k in NamesWith(hash, dir, expected, expected.Keys, Verified) <==>
      k in dir && dir[k].File? && hash(dir[k].content) == expected[k]
    ensures k in NamesWith(hash, dir, expected, expected.Keys, Failed) <==>
      k in dir && dir[k] != Dangling && !(dir[k].File? && hash(dir[k].content) == expected[k])
  {
  }

  /** Each listed file is counted once: verified, failed or missing. */
  method CountVerdicts(hash: string -> string, dir: Dir, expected: map<string, string>)
    returns (verified: nat, failed: nat, missing: nat)
    ensures verified == |NamesWith(hash, dir, expected, expected.Keys, Verified)|
    ensures failed == |NamesWith(hash, dir, expected, expected.Keys, Failed)|
    ensures missing == |NamesWith(hash, dir, expected, expected.Keys, Missing)|
    ensures verified + failed + missing == |expected|
    ensures failed == 0 && missing == 0 <==> forall k :: k in expected ==> Check(hash, dir, k, expected[k]) == Verified
  {
    hide NamesWith, Partition, Check;
    verified, failed, missing := 0, 0, 0;
    var todo := expected.Keys;
    ghost var done: set<string> := {};
    NothingDone(hash, dir, expected);
    PartitionStart(expected.Keys);
    while todo != {}
      invariant Partition(todo, done, expected.Keys)
      invariant verified + failed + missing == |done|
      invariant verified == |NamesWith(hash, dir, expected, done, Verified)|
      invariant failed == |NamesWith(hash, dir, expected, done, Failed)|
      invariant missing == |NamesWith(hash, dir, expected, done, Missing)|
      decreases |todo|
    {
      var name :| name in todo;
      MoveName(todo, done, expected.Keys, name);
      CountOne(hash, dir, expected, done, name, Verified);
      CountOne(hash, dir, expected, done, name, Failed);
      CountOne(hash, dir, expected, done, name, Missing);
      todo := todo - {name};
      done := done + {name};
      CheckMeans(hash, dir, name, expected[name]);
      if name !in dir || dir[name] == Dangling {
        missing := missing + 1;
        continue;
      }
      var actual := Checksum(hash, dir[name]);
      if actual == None {
        failed := failed + 1;
        continue;
      }
      if actual.value != expected[name] {
        failed := failed + 1;
      } else {
        verified := verified + 1;
      }
    }
    PartitionDone(done, expected.Keys);
    AllVerifiedIff(hash, dir, expected);
  }

  ghost predicate Partition(todo: set<string>, done: set<string>, all: set<string>)
    ensures Partition(todo, done, all) ==> done <= all && todo <= all
  {
    todo !! done && todo + done == all
  }

  lemma PartitionStart(all: set<string>)
    ensures Partition(all, {}, all)
  {
  }

  lemma PartitionDone(done: set<string>, all: set<string>)
    requires Partition({}, done, all)
    ensures done == all
  {
  }

  lemma MoveName(todo: set<string>, done: set<string>, all: set<string>, name: string)
    requires Partition(todo, done, all) && name in todo
    ensures Partition(todo - {name}, done + {name}, all)
    ensures name !in done && |done + {name}| == |done| + 1 && |todo - {name}| < |todo|
  {
  }

  lemma NothingDone(hash: string -> string, dir: Dir, expected: map<string, string>)
    ensures forall v :: NamesWith(hash, dir, expected, {}, v) == {}
  {
  }

  lemma CountOne(hash: string -> string, dir: Dir, expected: map<string, string>, done: set<string>, name: string,
                 v: Verdict)
    requires done <= expected.Keys && name in expected && name !in done
    ensures |NamesWith(hash, dir, expected, done + {name}, v)|
      == |NamesWith(hash, dir, expected, done, v)| + if Check(hash, dir, name, expected[name]) == v then 1 else 0
  {
    hide Check;
    var a, b := NamesWith(hash, dir, expected, done, v), NamesWith(hash, dir, expected, done + {name}, v);
    assert b == if Check(hash, dir, name, expected[name]) == v then a + {name} else a;
  }

  lemma AllVerifiedIff(hash: string -> string, dir: Dir, expected: map<string, string>)
    ensures |NamesWith(hash, dir, expected, expected.Keys, Failed)| == 0
      && |NamesWith(hash, dir, expected, expected.Keys, Missing)| == 0
      <==> forall k :: k in expected ==> Check(hash, dir, k, expected[k]) == Verified
  {
    var names := expected.Keys;
    var f, m := NamesWith(hash, dir, expected, names, Failed), NamesWith(hash, dir, expected, names, Missing);
    forall k | k in expected
      ensures Check(hash, dir, k, expected[k]) == Verified <==> k !in f && k !in m
    {
    }
    if |f| == 0 && |m| == 0 {
      assert f == {} && m == {};
    }
  }

  ghost predicate Passes(hash: string -> string, dir: Dir) {
    LIST_NAME !in dir || dir[LIST_NAME] == Dangling
    || (dir[LIST_NAME].File? &&
        var expected := Parse(dir[LIST_NAME].content);
        expected != map[] && forall k :: k in expected ==> Check(hash, dir, k, expected[k]) == Verified)
  }

  method ValidateChecksums(hash: string -> string, dir: Dir) returns (r: Report)
    ensures Passed(r) <==> Passes(hash, dir)
    ensures Passed(r) <==>
      || LIST_NAME !in dir || dir[LIST_NAME] == Dangling
      || (dir[LIST_NAME].File?
          && var expected := Parse(dir[LIST_NAME].content);
             && expected != map[]
             && forall k :: k in expected ==> k in dir && dir[k].File? && hash(dir[k].content) == expected[k])
    ensures r == NoList <==> LIST_NAME !in dir || dir[LIST_NAME] == Dangling
    ensures r == ListUnreadable <==> LIST_NAME in dir && (dir[LIST_NAME] == Directory || dir[LIST_NAME] == Unreadable)
    ensures r == ListEmpty <==> LIST_NAME in dir && dir[LIST_NAME].File? && Parse(dir[LIST_NAME].content) == map[]
    ensures r.Checked? ==>
      && LIST_NAME in dir && dir[LIST_NAME].File?
      && r.verified + r.failed + r.missing == |Parse(dir[LIST_NAME].content)|
  {
    if LIST_NAME !in dir || dir[LIST_NAME] == Dangling {
      return NoList;
    }
    if !dir[LIST_NAME].File? {
      return ListUnreadable;
    }
    var expected := ParseChecksums(dir[LIST_NAME].content);
    if |expected| == 0 {
      return ListEmpty;
    }
    var verified, failed, missing := CountVerdicts(hash, dir, expected);
    r := Checked(verified, failed, missing);
  }

  /** The directory after compute and save. */
  function Saved(hash: string -> string, dir: Dir, order: seq<string>): Dir
    requires forall k :: k in order ==> k in Computed(hash, dir)
  {
    dir[LIST_NAME := File(Print(Computed(hash, dir), order))]
  }

  /**
   Compute, save, validate on an unchanged directory of clean file names: validation passes
   exactly when there was a file to list and, should an earlier checksums.txt have been
   listed too, its hash happens to equal that of the new list.  A dangling link of that name
   is not listed, and saving creates its target.
   */
  lemma SaveThenValidate(hash: string -> string, dir: Dir, order: seq<string>)
    requires forall c :: Clean(hash(c))
    requires LIST_NAME in dir ==> dir[LIST_NAME].File? || dir[LIST_NAME] == Dangling
    requires AllClean(Computed(hash, dir)) && OrderOf(order, Computed(hash, dir))
    ensures Passes(hash, Saved(hash, dir, order)) <==>
      && (exists k :: k in dir && dir[k].File?)
      && (LIST_NAME in dir && dir[LIST_NAME].File? ==>
            hash(dir[LIST_NAME].content) == hash(Print(Computed(hash, dir), order)))
  {
    var m := Computed(hash, dir);
    var after := Saved(hash, dir, order);
    RoundTripIff(m, order);
    assert Parse(after[LIST_NAME].content) == m;
    assert m == map[] <==> !exists k :: k in dir && dir[k].File? by {
      if k :| k in dir && dir[k].File? {
        assert k in m;
      }
    }
    forall k | k in m
      ensures k != LIST_NAME ==> Check(hash, after, k, m[k]) == Verified
    {
    }
    if LIST_NAME in dir && dir[LIST_NAME].File? {
      assert LIST_NAME in m;
      assert Check(hash, after, LIST_NAME, m[LIST_NAME]) == Verified
        <==> hash(Print(m, order)) == hash(dir[LIST_NAME].content);
    }
  }

  /** In particular, without an earlier list, a non-empty directory of clean names always validates. */
  lemma FreshListValidates(hash: string -> string, dir: Dir, order: seq<string>)
    requires forall c :: Clean(hash(c))
    requires LIST_NAME in dir ==> dir[LIST_NAME] == Dangling
    requires AllClean(Computed(hash, dir)) && OrderOf(order, Computed(hash, dir))
    requires exists k :: k in dir && dir[k].File?
    ensures Passes(hash, Saved(hash, dir, order))
  {
    SaveThenValidate(hash, dir, order);
  }

  /**
   Saving a second time lists the first list and then overwrites it, so validation passes
   only if the hash collides on two lists that differ.
   */
  lemma SecondSavePassesIff(hash: string -> string, dir: Dir, order: seq<string>, again: seq<string>)
    requires forall c :: Clean(hash(c))
    requires LIST_NAME in dir ==> dir[LIST_NAME] == Dangling
    requires AllClean(Computed(hash, dir)) && OrderOf(order, Computed(hash, dir))
    requires OrderOf(again, Computed(hash, Saved(hash, dir, order)))
    ensures var dir' := Saved(hash, dir, order);
      var first, second := Print(Computed(hash, dir), order), Print(Computed(hash, dir'), again);
      && first != second
      && (Passes(hash, Saved(hash, dir', again)) <==> hash(first) == hash(second))
  {
    var dir' := Saved(hash, dir, order);
    assert LIST_NAME in Computed(hash, dir') && Clean(LIST_NAME);
    assert AllClean(Computed(hash, dir'));
    RoundTripIff(Computed(hash, dir), order);
    RoundTripIff(Computed(hash, dir'), again);
    SaveThenValidate(hash, dir', again);
  }

  /**
   What a list protects against: with the list of a directory in it, any other directory
   passes exactly when every listed file is there, readable, and hashes as it did.
   */
  lemma SavedListDetects(hash: string -> string, dir: Dir, order: seq<string>, other: Dir)
    requires forall c :: Clean(hash(c))
    requires AllClean(Computed(hash, dir)) && OrderOf(order, Computed(hash, dir))
    requires LIST_NAME in other && other[LIST_NAME] == Saved(hash, dir, order)[LIST_NAME]
    ensures Passes(hash, other) <==>
      && (exists k :: k in dir && dir[k].File?)
      && forall k :: k in dir && dir[k].File? ==>
           k in other && other[k].File? && hash(other[k].content) == hash(dir[k].content)
  {
    var m := Computed(hash, dir);
    RoundTripIff(m, order);
    assert Parse(other[LIST_NAME].content) == m;
    hide Parse, Print;
    assert m == map[] <==> !exists k :: k in dir && dir[k].File? by {
      if k :| k in dir && dir[k].File? {
        assert k in m;
      }
    }
    forall k | k in m
      ensures Check(hash, other, k, m[k]) == Verified <==>
        k in other && other[k].File? && hash(other[k].content) == hash(dir[k].content)
    {
      CheckMeans(hash, other, k, m[k]);
    }
  }
}
