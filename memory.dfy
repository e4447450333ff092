/** The memory browser: sorting workspace files into categories and reading
    the file and skill listings the gateway returns as text. */
module Memory {
  import Strings
  import Seqs

  datatype Category = Core | DailyMemory | Skill | Other

  datatype FileEntry = FileEntry(path: string, name: string, category: Category)

  /** The agent's core files, recognised by name in any directory. */
  const CoreNames: seq<string> := ["MEMORY.md", "SOUL.md", "USER.md", "IDENTITY.md", "AGENTS.md", "TOOLS.md", "HEARTBEAT.md"]

  /** The last `/`-separated segment of a path. */
  function BaseName(path: string): string {
    Strings.LastSegment(path, '/')
  }

  /** A file's category: core by name first, then by directory, where a
      `/memory/` directory wins over a `/skills/` one. */
  function Categorize(path: string): (c: Category)
    ensures c == Core <==> BaseName(path) in CoreNames
    ensures c == DailyMemory <==> BaseName(path) !in CoreNames && Strings.Contains(path, "/memory/")
    ensures c == Skill <==> BaseName(path) !in CoreNames && !Strings.Contains(path, "/memory/")
                            && Strings.Contains(path, "/skills/")
    ensures c == Other <==> BaseName(path) !in CoreNames && !Strings.Contains(path, "/memory/")
                            && !Strings.Contains(path, "/skills/")
  {
    var name := BaseName(path);
    if name in CoreNames then Core
    else if Strings.Contains(path, "/memory/") then DailyMemory
    else if Strings.Contains(path, "/skills/") then Skill
    else Other
  }

  /** A core file name makes a path core whatever directory it lies in, even
      under `memory` or `skills`. */
  lemma CoreInAnyDirectory(dir: string, name: string)
    requires name in CoreNames
    ensures Categorize(dir + "/" + name) == Core
  {
    assert '/' !in name;
    assert dir + "/" + name == dir + ['/'] + name;
    Strings.LastSegmentAfter(dir, name, '/');
  }

  /** A non-core file under a `memory` directory in a `skills` tree, or the
      other way round, is filed as memory. */
  lemma MemoryBeforeSkills(a: string, b: string, c: string)
    requires BaseName(a + "/memory/" + b + "/skills/" + c) !in CoreNames
    requires BaseName(a + "/skills/" + b + "/memory/" + c) !in CoreNames
    ensures Categorize(a + "/memory/" + b + "/skills/" + c) == DailyMemory
    ensures Categorize(a + "/skills/" + b + "/memory/" + c) == DailyMemory
  {
    assert a + "/memory/" + b + "/skills/" + c == a + "/memory/" + (b + "/skills/" + c);
    Strings.ContainsSpliced(a, "/memory/", b + "/skills/" + c);
    assert a + "/skills/" + b + "/memory/" + c == (a + "/skills/" + b) + "/memory/" + c;
    Strings.ContainsSpliced(a + "/skills/" + b, "/memory/", c);
  }

  predicate IsMarkdownLine(line: string) {
    Strings.EndsWith(Strings.Trim(line), ".md")
  }

  /** The entry for one listed path: trimmed path, its last segment as name
      (the whole path should that segment be empty), its category. */
  function EntryFor(line: string): FileEntry {
    var p := Strings.Trim(line);
    FileEntry(p, if BaseName(p) != "" then BaseName(p) else p, Categorize(p))
  }

  /** What an entry holds when its line is a markdown line without newlines. */
  predicate GoodEntry(e: FileEntry) {
    && Strings.EndsWith(e.path, ".md") && Strings.Trim(e.path) == e.path
    && '\n' !in e.path
    && e.name == BaseName(e.path) && e.name != "" && '/' !in e.name
    && e.category == Categorize(e.path)
  }

  lemma EntryForMarkdown(line: string)
    requires IsMarkdownLine(line) && '\n' !in line
    ensures EntryFor(line).path == Strings.Trim(line)
    ensures GoodEntry(EntryFor(line))
  {
    var p := Strings.Trim(line);
    Strings.TrimIdempotent(line);
    MarkdownBaseName(p);
    TrimmedHasNoNewline(line);
  }

  /** The markdown files of a listing: one entry per line whose trimmed text
      ends in ".md", in listing order. */
  function FileEntries(listing: string): (r: seq<FileEntry>)
    ensures |r| == Seqs.Count(Strings.Split(listing, '\n'), IsMarkdownLine)
    ensures forall i :: 0 <= i < |r| ==>
      r[i] == EntryFor(Seqs.Filter(Strings.Split(listing, '\n'), IsMarkdownLine)[i])
  {
    Entries(Seqs.Filter(Strings.Split(listing, '\n'), IsMarkdownLine))
  }

  /** Every entry of a listing holds a trimmed markdown path, that path's
      non-empty last segment as its name, and the path's category. */
  lemma FileEntriesGood(listing: string)
    ensures forall i :: 0 <= i < |FileEntries(listing)| ==> GoodEntry(FileEntries(listing)[i])
  {
    var lines := Seqs.Filter(Strings.Split(listing, '\n'), IsMarkdownLine);
    var r := FileEntries(listing);
    assert r == Entries(lines);
    forall i | 0 <= i < |r| ensures GoodEntry(r[i]) {
      MarkdownLine(listing, i);
      EntryForMarkdown(lines[i]);
    }
  }

  /** One entry per line, in order. */
  function Entries(lines: seq<string>): (r: seq<FileEntry>)
    ensures |r| == |lines|
    ensures forall i :: 0 <= i < |lines| ==> r[i] == EntryFor(lines[i])
  {
    seq(|lines|, i requires 0 <= i < |lines| => EntryFor(lines[i]))
  }

  /** A kept line of a listing is a markdown line without newlines. */
  lemma MarkdownLine(listing: string, i: nat)
    requires i < |Seqs.Filter(Strings.Split(listing, '\n'), IsMarkdownLine)|
    ensures var line := Seqs.Filter(Strings.Split(listing, '\n'), IsMarkdownLine)[i];
      IsMarkdownLine(line) && '\n' !in line
  {
    var pieces := Strings.Split(listing, '\n');
    Seqs.FilterMembers(pieces, IsMarkdownLine);
    assert Seqs.Filter(pieces, IsMarkdownLine)[i] in pieces;
  }

  /** A path ending in ".md" has a non-empty last segment. */
  lemma MarkdownBaseName(p: string)
    requires Strings.EndsWith(p, ".md")
    ensures BaseName(p) != ""
  {
    assert p[|p| - 1] == 'd';
  }

  /** Trimming a newline-free piece keeps it newline-free. */
  lemma TrimmedHasNoNewline(line: string)
    requires '\n' !in line
    ensures '\n' !in Strings.Trim(line)
  {
    var t := Strings.TrimStart(line);
    var r := Strings.TrimEnd(t);
    assert r == Strings.Trim(line);
    forall k | 0 <= k < |r| ensures r[k] != '\n' {
      assert r[k] == t[k];
      assert t[k] == line[|line| - |t| + k];
    }
  }

  predicate IsSkillLine(line: string) {
    Strings.Trim(line) != "" && Strings.Trim(line) != "---user---"
  }

  function TrimAll(lines: seq<string>): (r: seq<string>)
    ensures |r| == |lines|
    ensures forall i :: 0 <= i < |lines| ==> r[i] == Strings.Trim(lines[i])
  {
    seq(|lines|, i requires 0 <= i < |lines| => Strings.Trim(lines[i]))
  }

  /** The skill names of a listing: every line, trimmed, except blank lines
      and the "---user---" marker between built-in and user skills. */
  function SkillNames(listing: string): (r: seq<string>)
    ensures r == TrimAll(Seqs.Filter(Strings.Split(listing, '\n'), IsSkillLine))
    ensures forall i :: 0 <= i < |r| ==>
      r[i] != "" && r[i] != "---user---" && Strings.Trim(r[i]) == r[i] && '\n' !in r[i]
  {
    var split := Strings.Split(listing, '\n');
    var kept := Seqs.Filter(split, IsSkillLine);
    Seqs.FilterMembers(split, IsSkillLine);
    var names := TrimAll(kept);
    forall i | 0 <= i < |names| ensures Strings.Trim(names[i]) == names[i] && '\n' !in names[i] {
      assert kept[i] in split;
      Strings.TrimIdempotent(kept[i]);
      TrimmedHasNoNewline(kept[i]);
    }
    Seqs.FilterAll(names, Strings.NonEmpty);
    Seqs.Filter(names, Strings.NonEmpty)
  }

  /** The files listed under the active category tab, in listing order. */
  function Displayed(files: seq<FileEntry>, active: Category): (r: seq<FileEntry>)
    ensures forall f :: f in r <==> f in files && f.category == active
    ensures Seqs.IsSubsequence(r, files)
    ensures forall f :: multiset(r)[f] == if f.category == active then multiset(files)[f] else 0
  {
    var inTab := (f: FileEntry) => f.category == active;
    Seqs.FilterIsSubsequence(files, inTab);
    Seqs.FilterMembers(files, inTab);
    Seqs.FilterMultiset(files, inTab);
    Seqs.Filter(files, inTab)
  }

  /** The four tabs together show every file exactly once. */
  lemma {:induction false} TabsPartitionFiles(files: seq<FileEntry>)
    ensures |Displayed(files, Core)| + |Displayed(files, DailyMemory)|
          + |Displayed(files, Skill)| + |Displayed(files, Other)| == |files|
    decreases |files|
  {
    if files != [] {
      TabsPartitionFiles(files[1..]);
      DisplayedCons(files, Core);
      DisplayedCons(files, DailyMemory);
      DisplayedCons(files, Skill);
      DisplayedCons(files, Other);
    }
  }

  /** The first file counts towards its own tab only. */
  lemma DisplayedCons(files: seq<FileEntry>, active: Category)
    requires files != []
    ensures |Displayed(files, active)| == (if files[0].category == active then 1 else 0) + |Displayed(files[1..], active)|
  {
    Seqs.FilterCons(files, (f: FileEntry) => f.category == active);
  }
}
