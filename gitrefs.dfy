/**
 * What the engine reads back from git: the output of `ls-remote --head`
 * (main.py:259-268), of `ls-remote --tags` (main.py:279-285) and of
 * `worktree list` (main.py:247-257), the local branch query
 * (main.py:273-277), and the tag name `{depot}_{gid}` that marks an
 * archived manifest version (main.py:287-291).
 */
module GitRefs {
  import opened Wrappers
  import opened Text

  // ---------------------------------------------------------------------
  // Version tags
  // ---------------------------------------------------------------------

  /** The tag that marks depot `depotId` archived at manifest `gid`. */
  function TagName(depotId: string, gid: string): string
  {
    depotId + "_" + gid
  }

  /** `check_manifest_exist`: the tag is among the local or the remote tags. */
  predicate ManifestExists(localTags: set<string>, remoteTags: set<string>, depotId: string, gid: string)
  {
    TagName(depotId, gid) in localTags + remoteTags
  }

  /** Depot ids are decimal, so a tag name determines its depot and its
      manifest: the dedup query cannot confuse two versions. */
  lemma TagNameInjective(d1: string, g1: string, d2: string, g2: string)
    requires IsDecimal(d1) && IsDecimal(d2)
    requires TagName(d1, g1) == TagName(d2, g2)
    ensures d1 == d2 && g1 == g2
  {
    var t := TagName(d1, g1);
    assert t[|d1|] == '_' && t[|d2|] == '_';
    assert forall i :: 0 <= i < |d1| ==> t[i] == d1[i];
    assert forall i :: 0 <= i < |d2| ==> t[i] == d2[i];
    assert |d1| == |d2|;
    assert d1 == t[..|d1|] == d2;
    assert g1 == t[|d1| + 1..] == g2;
  }

  /** Adding the tag of one archived manifest, as a successful fetch does,
      makes the query true for exactly that manifest among the decimal
      depots, and leaves its answer for every other one unchanged. */
  lemma ManifestExistsAfterTag(localTags: set<string>, remoteTags: set<string>,
                               depotId: string, gid: string, otherDepot: string, otherGid: string)
    requires IsDecimal(depotId) && IsDecimal(otherDepot)
    ensures ManifestExists(localTags + {TagName(depotId, gid)}, remoteTags, otherDepot, otherGid)
            <==> ManifestExists(localTags, remoteTags, otherDepot, otherGid) || (otherDepot == depotId && otherGid == gid)
  {
    if TagName(otherDepot, otherGid) == TagName(depotId, gid) {
      TagNameInjective(otherDepot, otherGid, depotId, gid);
    }
  }

  // ---------------------------------------------------------------------
  // ls-remote --tags
  // ---------------------------------------------------------------------

  /** One non-empty line of `ls-remote --tags`: exactly two fields, and the
      tag is the last `/`-component of the second; `None` where Python's
      `sha, tag = i.split()` raises. */
  function TagOfLine(line: string): Option<string>
  {
    var f := Fields(line);
    if |f| != 2 then None
    else
      var parts := SplitOn(f[1], '/');
      Some(parts[|parts| - 1])
  }

  /** A ref `a/b/rest` splits into `a`, `b` and the pieces of `rest`. */
  lemma SplitRef(a: string, b: string, rest: string)
    requires '/' !in a && '/' !in b
    ensures SplitOn(a + "/" + b + "/" + rest, '/') == [a, b] + SplitOn(rest, '/')
  {
    assert a + "/" + b + "/" + rest == a + ['/'] + (b + ['/'] + rest);
    SplitOnCons(a, '/', b + ['/'] + rest);
    SplitOnCons(b, '/', rest);
  }

  /** A line `sha<TAB>prefix+name` has the two fields `sha` and `prefix+name`
      when none of them contains whitespace. */
  lemma RefLineFields(sha: string, prefix: string, name: string)
    requires IsWord(sha) && IsWord(prefix)
    requires forall i :: 0 <= i < |name| ==> !IsSpace(name[i])
    ensures Fields(sha + "\t" + prefix + name) == [sha, prefix + name]
  {
    var r := prefix + name;
    forall i | 0 <= i < |r| ensures !IsSpace(r[i]) {
      if i >= |prefix| { assert r[i] == name[i - |prefix|]; }
    }
    assert sha + "\t" + prefix + name == sha + ['\t'] + r;
    FieldsCons(sha, '\t', r);
    FieldsWord(r);
  }

  /** The two ref prefixes contain no whitespace. */
  lemma RefPrefixesAreWords()
    ensures IsWord("refs/heads/") && IsWord("refs/tags/")
  {
    var h := "refs/heads/";
    forall i | 0 <= i < |h| ensures !IsSpace(h[i]) {
      assert h[i] in "refs/hads";
    }
    var t := "refs/tags/";
    forall i | 0 <= i < |t| ensures !IsSpace(t[i]) {
      assert t[i] in "refs/tag";
    }
  }

  /** A tag or branch ref splits into `refs`, its kind and the pieces of its name. */
  lemma SplitRefsOf(kind: string, name: string)
    requires kind == "tags" || kind == "heads"
    ensures SplitOn((if kind == "tags" then "refs/tags/" else "refs/heads/") + name, '/')
            == ["refs", kind] + SplitOn(name, '/')
  {
    var prefix := if kind == "tags" then "refs/tags/" else "refs/heads/";
    assert prefix == "refs" + "/" + kind + "/";
    assert prefix + name == "refs" + "/" + kind + "/" + name;
    SplitRef("refs", kind, name);
  }

  /** The line git prints for tag `name` at commit `sha`. */
  function TagLine(sha: string, name: string): string
  {
    sha + "\t" + "refs/tags/" + name
  }

  /** A printed tag line parses back to its tag. */
  lemma TagLineRoundTrip(sha: string, name: string)
    requires IsWord(sha)
    requires forall i :: 0 <= i < |name| ==> !IsSpace(name[i]) && name[i] != '/'
    ensures TagOfLine(TagLine(sha, name)) == Some(name)
  {
    RefPrefixesAreWords();
    RefLineFields(sha, "refs/tags/", name);
    SplitRefsOf("tags", name);
    SplitOnPlain(name, '/');
  }

  /** How many leading lines of `ls-remote --tags` Python gets through:
      empty lines and tag lines, up to the first line that raises. */
  function ParsedCount(lines: seq<string>): (n: nat)
    ensures n <= |lines|
    ensures forall j :: 0 <= j < n ==> lines[j] == "" || TagOfLine(lines[j]).Some?
    ensures n < |lines| ==> lines[n] != "" && TagOfLine(lines[n]).None?
    decreases |lines|
  {
    if |lines| == 0 then 0
    else if lines[0] == "" || TagOfLine(lines[0]).Some? then
      var m := ParsedCount(lines[1..]);
      assert forall j :: 1 <= j < |lines| ==> lines[j] == lines[1..][j - 1];
      1 + m
    else 0
  }

  /** The tags of the first `n` lines. */
  function TagsBefore(lines: seq<string>, n: nat): set<string>
    requires n <= |lines|
  {
    set j | 0 <= j < n && lines[j] != "" && TagOfLine(lines[j]).Some? :: TagOfLine(lines[j]).value
  }

  /**
   * The tag loop of `get_remote_tags`: skips empty lines and adds the tag of
   * every other line, stopping at the first malformed line (where Python
   * raises, keeping the tags already added). `parsed` is the number of lines
   * consumed.
   */
  method ParseRemoteTags(output: string) returns (tags: set<string>, parsed: nat, ok: bool)
    ensures var lines := SplitOn(output, '\n');
      && parsed == ParsedCount(lines)
      && (ok <==> parsed == |lines|)
      && tags == TagsBefore(lines, parsed)
  {
    var lines := SplitOn(output, '\n');
    tags := {};
    parsed := 0;
    while parsed < |lines|
      invariant parsed <= |lines|
      invariant forall j :: 0 <= j < parsed ==> lines[j] == "" || TagOfLine(lines[j]).Some?
      invariant tags == TagsBefore(lines, parsed)
    {
      var line := lines[parsed];
      if line != "" {
        var tag := TagOfLine(line);
        if tag.None? {
          FirstFailure(lines, parsed);
          return tags, parsed, false;
        }
        tags := tags + {tag.value};
      }
      parsed := parsed + 1;
    }
    FirstFailure(lines, parsed);
    ok := true;
  }

  /** `ParsedCount` is the first position where parsing fails, or the end. */
  lemma FirstFailure(lines: seq<string>, n: nat)
    requires n <= |lines|
    requires forall j :: 0 <= j < n ==> lines[j] == "" || TagOfLine(lines[j]).Some?
    requires n < |lines| ==> lines[n] != "" && TagOfLine(lines[n]).None?
    ensures n == ParsedCount(lines)
  {
  }

  // ---------------------------------------------------------------------
  // ls-remote --head
  // ---------------------------------------------------------------------

  /** One line of `ls-remote --head`: `(branch, commit)`, the branch being
      the third `/`-component of the ref; `None` where Python raises (not
      exactly two fields, or fewer than three components). */
  function HeadOfLine(line: string): Option<(string, string)>
  {
    var f := Fields(line);
    if |f| != 2 then None
    else
      var parts := SplitOn(f[1], '/');
      if |parts| < 3 then None else Some((parts[2], f[0]))
  }

  predicate AllHeads(lines: seq<string>)
  {
    forall j :: 0 <= j < |lines| ==> HeadOfLine(lines[j]).Some?
  }

  /** The dictionary `head_dict` after the lines, a later line winning. */
  function HeadMap(lines: seq<string>): map<string, string>
    requires AllHeads(lines)
  {
    if |lines| == 0 then map[]
    else
      var h := HeadOfLine(lines[|lines| - 1]).value;
      HeadMap(lines[..|lines| - 1])[h.0 := h.1]
  }

  /** A branch is in the dictionary exactly when some line names it, and it
      maps to the commit of the last such line. */
  lemma {:induction false} HeadMapLastWins(lines: seq<string>, name: string)
    requires AllHeads(lines)
    ensures name in HeadMap(lines) <==> exists j :: 0 <= j < |lines| && HeadOfLine(lines[j]).value.0 == name
    ensures forall j :: 0 <= j < |lines| && HeadOfLine(lines[j]).value.0 == name
                        && (forall k :: j < k < |lines| ==> HeadOfLine(lines[k]).value.0 != name)
                        ==> name in HeadMap(lines) && HeadMap(lines)[name] == HeadOfLine(lines[j]).value.1
  {
    if |lines| > 0 {
      var n := |lines| - 1;
      var init := lines[..n];
      assert AllHeads(init) by {
        forall j | 0 <= j < |init| ensures HeadOfLine(init[j]).Some? {
          assert init[j] == lines[j];
        }
      }
      HeadMapLastWins(init, name);
      forall j | 0 <= j < n ensures init[j] == lines[j] {
      }
    }
  }

  /** The line git prints for branch `name` at commit `sha`. */
  function HeadLine(sha: string, name: string): string
  {
    sha + "\t" + "refs/heads/" + name
  }

  /** A printed branch line parses back to the part of the branch name before
      its first `/`. */
  lemma HeadLineRoundTrip(sha: string, name: string)
    requires IsWord(sha)
    requires forall i :: 0 <= i < |name| ==> !IsSpace(name[i])
    ensures HeadOfLine(HeadLine(sha, name)) == Some((SplitOn(name, '/')[0], sha))
  {
    var line := HeadLine(sha, name);
    var r := "refs/heads/" + name;
    RefPrefixesAreWords();
    RefLineFields(sha, "refs/heads/", name);
    assert Fields(line) == [sha, r];
    SplitRefsOf("heads", name);
    var parts := SplitOn(r, '/');
    assert parts[2] == SplitOn(name, '/')[0];
  }

  /** A branch name without `/` comes back whole. */
  lemma HeadLinePlainRoundTrip(sha: string, name: string)
    requires IsWord(sha)
    requires forall i :: 0 <= i < |name| ==> !IsSpace(name[i]) && name[i] != '/'
    ensures HeadOfLine(HeadLine(sha, name)) == Some((name, sha))
  {
    HeadLineRoundTrip(sha, name);
    SplitOnPlain(name, '/');
  }

  /** One more line that parses extends the dictionary by its entry. */
  lemma HeadMapSnoc(lines: seq<string>, i: nat)
    requires i < |lines| && AllHeads(lines[..i]) && HeadOfLine(lines[i]).Some?
    ensures AllHeads(lines[..i + 1])
    ensures HeadMap(lines[..i + 1]) == HeadMap(lines[..i])[HeadOfLine(lines[i]).value.0 := HeadOfLine(lines[i]).value.1]
  {
    assert lines[..i + 1][..i] == lines[..i];
    assert forall j :: 0 <= j < i + 1 ==> lines[..i + 1][j] == lines[j];
  }

  /** The parsing part of `get_remote_head`: `None` where Python raises, in
      which case nothing is cached. Note that an empty output is one empty
      line, which raises. */
  method ParseRemoteHeads(output: string) returns (heads: Option<map<string, string>>)
    ensures heads.Some? <==> AllHeads(SplitOn(output, '\n'))
    ensures heads.Some? ==> heads.value == HeadMap(SplitOn(output, '\n'))
  {
    var lines := SplitOn(output, '\n');
    var headDict := map[];
    var i := 0;
    while i < |lines|
      invariant i <= |lines|
      invariant AllHeads(lines[..i])
      invariant headDict == HeadMap(lines[..i])
    {
      var h := HeadOfLine(lines[i]);
      if h.None? {
        assert !AllHeads(lines) by {
          assert HeadOfLine(lines[i]).None?;
        }
        return None;
      }
      HeadMapSnoc(lines, i);
      headDict := headDict[h.value.0 := h.value.1];
      i := i + 1;
    }
    assert lines[..i] == lines;
    heads := Some(headDict);
  }

  // ---------------------------------------------------------------------
  // worktree list
  // ---------------------------------------------------------------------

  datatype Worktree = Worktree(path: string, head: string)

  /** A line of `worktree list` that parsed: skipped (its branch is not an
      app id) or an entry for an app branch. */
  datatype WorktreeLine = Skipped | Entry(name: string, tree: Worktree)

  /** `path, head, name, *_ = worktree.split()`, then the brackets come off
      the branch; `None` where Python raises (fewer than three fields). */
  function WorktreeOfLine(line: string): Option<WorktreeLine>
  {
    var f := Fields(line);
    if |f| < 3 then None
    else
      var name := Inner(f[2]);
      if !IsDecimal(name) then Some(Skipped) else Some(Entry(name, Worktree(f[0], f[1])))
  }

  predicate AllWorktrees(lines: seq<string>)
  {
    forall j :: 0 <= j < |lines| ==> WorktreeOfLine(lines[j]).Some?
  }

  function WorktreeMap(lines: seq<string>): map<string, Worktree>
    requires AllWorktrees(lines)
  {
    if |lines| == 0 then map[]
    else
      var prev := WorktreeMap(lines[..|lines| - 1]);
      var w := WorktreeOfLine(lines[|lines| - 1]).value;
      if w.Entry? then prev[w.name := w.tree] else prev
  }

  /** The dictionary built from parsed lines, a later entry winning. */
  function EntryMap(ws: seq<WorktreeLine>): map<string, Worktree>
  {
    if |ws| == 0 then map[]
    else
      var prev := EntryMap(ws[..|ws| - 1]);
      var w := ws[|ws| - 1];
      if w.Entry? then prev[w.name := w.tree] else prev
  }

  lemma {:induction false} EntryMapKeys(ws: seq<WorktreeLine>, name: string)
    ensures name in EntryMap(ws) <==> exists j :: 0 <= j < |ws| && ws[j].Entry? && ws[j].name == name
  {
    if |ws| > 0 {
      var n := |ws| - 1;
      EntryMapKeys(ws[..n], name);
      assert forall j :: 0 <= j < n ==> ws[..n][j] == ws[j];
    }
  }

  /** The parsed form of lines that all parse. */
  function ParsedLines(lines: seq<string>): (ws: seq<WorktreeLine>)
    requires AllWorktrees(lines)
    ensures |ws| == |lines|
    ensures forall j :: 0 <= j < |lines| ==> ws[j] == WorktreeOfLine(lines[j]).value
    decreases |lines|
  {
    if |lines| == 0 then []
    else
      var n := |lines| - 1;
      assert AllWorktrees(lines[..n]) by {
        forall j | 0 <= j < n ensures WorktreeOfLine(lines[..n][j]).Some? {
          assert lines[..n][j] == lines[j];
        }
      }
      ParsedLines(lines[..n]) + [WorktreeOfLine(lines[n]).value]
  }

  lemma {:induction false} WorktreeMapOfParsed(lines: seq<string>)
    requires AllWorktrees(lines)
    ensures WorktreeMap(lines) == EntryMap(ParsedLines(lines))
    decreases |lines|
  {
    if |lines| > 0 {
      var n := |lines| - 1;
      WorktreeMapOfParsed(lines[..n]);
      assert ParsedLines(lines)[..n] == ParsedLines(lines[..n]);
    }
  }

  /** The worktree dictionary holds exactly the decimal branch names that
      some line shows. */
  lemma WorktreeMapKeys(lines: seq<string>, name: string)
    requires AllWorktrees(lines)
    ensures name in WorktreeMap(lines) <==>
      exists j :: 0 <= j < |lines| && WorktreeOfLine(lines[j]).value.Entry? && WorktreeOfLine(lines[j]).value.name == name
    ensures name in WorktreeMap(lines) ==> IsDecimal(name)
  {
    WorktreeMapOfParsed(lines);
    var ws := ParsedLines(lines);
    EntryMapKeys(ws, name);
    if name in WorktreeMap(lines) {
      var j :| 0 <= j < |ws| && ws[j].Entry? && ws[j].name == name;
      assert ws[j] == WorktreeOfLine(lines[j]).value;
    }
  }

  /** The line git prints for a worktree at `path` on branch `name`. */
  function WorktreeListLine(path: string, head: string, name: string): string
  {
    path + " " + head + " [" + name + "]"
  }

  /** The line git prints for the worktree of an app branch parses back to it. */
  lemma WorktreeLineRoundTrip(path: string, head: string, name: string)
    requires IsWord(path) && IsWord(head) && IsDecimal(name)
    ensures WorktreeOfLine(WorktreeListLine(path, head, name)) == Some(Entry(name, Worktree(path, head)))
  {
    var b := "[" + name + "]";
    assert IsWord(b) by {
      forall i | 0 <= i < |b| ensures !IsSpace(b[i]) {
        if 0 < i < |b| - 1 { assert b[i] == name[i - 1]; }
      }
    }
    assert WorktreeListLine(path, head, name) == path + [' '] + (head + [' '] + b);
    FieldsCons(path, ' ', head + [' '] + b);
    FieldsCons(head, ' ', b);
    FieldsWord(b);
    assert Inner(b) == name;
  }

  /** One more line that parses adds its entry, if it has one. */
  lemma WorktreeMapSnoc(lines: seq<string>, i: nat)
    requires i < |lines| && AllWorktrees(lines[..i]) && WorktreeOfLine(lines[i]).Some?
    ensures AllWorktrees(lines[..i + 1])
    ensures var w := WorktreeOfLine(lines[i]).value;
      WorktreeMap(lines[..i + 1]) == if w.Entry? then WorktreeMap(lines[..i])[w.name := w.tree] else WorktreeMap(lines[..i])
  {
    assert lines[..i + 1][..i] == lines[..i];
    assert forall j :: 0 <= j < i + 1 ==> lines[..i + 1][j] == lines[j];
  }

  /** `get_app_worktree`: the dictionary of app worktrees, or `None` where
      Python raises. */
  method GetAppWorktree(output: string) returns (trees: Option<map<string, Worktree>>)
    ensures trees.Some? <==> AllWorktrees(SplitOn(output, '\n'))
    ensures trees.Some? ==> trees.value == WorktreeMap(SplitOn(output, '\n'))
  {
    var lines := SplitOn(output, '\n');
    var worktreeDict := map[];
    var i := 0;
    while i < |lines|
      invariant i <= |lines|
      invariant AllWorktrees(lines[..i])
      invariant worktreeDict == WorktreeMap(lines[..i])
    {
      var w := WorktreeOfLine(lines[i]);
      if w.None? {
        assert !AllWorktrees(lines) by {
          assert WorktreeOfLine(lines[i]).None?;
        }
        return None;
      }
      WorktreeMapSnoc(lines, i);
      if w.value.Entry? {
        worktreeDict := worktreeDict[w.value.name := w.value.tree];
      }
      i := i + 1;
    }
    assert lines[..i] == lines;
    trees := Some(worktreeDict);
  }

  // ---------------------------------------------------------------------
  // Local branches
  // ---------------------------------------------------------------------

  /** `check_app_repo_local`: some local branch has this name. */
  function HasBranch(branches: seq<string>, name: string): (r: bool)
    ensures r <==> exists i :: 0 <= i < |branches| && branches[i] == name
  {
    if |branches| == 0 then false
    else branches[0] == name || HasBranch(branches[1..], name)
  }
}
