/** The file-name filter `parse_folder`: keep the names of a directory listing
    whose first two lower-cased tokens are the instrument and the series. */
module FileFilter {
  import opened Outcomes
  import opened Text
  import opened Selection

  /** The token delimiter of each data repository's naming convention. */
  function Delimiter(repo: string): Option<char>
  {
    if repo == "JSOC" then Some('.')
    else if repo == "VSO" then Some('_')
    else None
  }

  /** What the loop body does with one name: keep it (`Ok(true)`), skip it
      (`Ok(false)`), or fail. An unknown repository leaves the token list unbound;
      a name whose first token is the instrument but has no second token fails on
      `sfile_[1]`. The `and` short-circuits, so a name whose first token differs
      is skipped whatever its length. */
  function Classify(name: string, inst: string, series: string, repo: string): Result<bool>
  {
    match Delimiter(repo)
    case None => Err(UnknownRepo(repo))
    case Some(d) =>
      var t := Split(Lower(name), d);
      if t[0] != Lower(inst) then Ok(false)
      else if |t| < 2 then Err(TooFewTokens(name))
      else Ok(t[1] == Lower(series))
  }

  predicate Matches(name: string, inst: string, series: string, repo: string)
  {
    Classify(name, inst, series, repo) == Ok(true)
  }

  /** The classification covers every case: it fails exactly for an unknown
      repository or a one-token name that starts with the instrument, and it keeps
      exactly the names whose tokens 0 and 1 are the instrument and the series. */
  lemma ClassifyCases(name: string, inst: string, series: string, repo: string)
    ensures Classify(name, inst, series, repo).Err? <==>
            Delimiter(repo).None? ||
            (var t := Split(Lower(name), Delimiter(repo).value); t[0] == Lower(inst) && |t| < 2)
    ensures Matches(name, inst, series, repo) <==>
            Delimiter(repo).Some? &&
            (var t := Split(Lower(name), Delimiter(repo).value);
             |t| >= 2 && t[0] == Lower(inst) && t[1] == Lower(series))
  {
  }

  /** Which names of the listing match, position by position. */
  function MatchMarks(listing: seq<string>, inst: string, series: string, repo: string): (m: seq<bool>)
    ensures |m| == |listing|
  {
    if listing == [] then []
    else MatchMarks(DropLast(listing), inst, series, repo) + [Matches(Last(listing), inst, series, repo)]
  }

  /** Mark `i` says whether name `i` matches. */
  lemma {:induction false} MatchMarksAt(listing: seq<string>, inst: string, series: string, repo: string, i: nat)
    requires i < |listing|
    ensures MatchMarks(listing, inst, series, repo)[i] == Matches(listing[i], inst, series, repo)
    decreases |listing|
  {
    if i < |listing| - 1 {
      MatchMarksAt(DropLast(listing), inst, series, repo, i);
      assert DropLast(listing)[i] == listing[i];
    }
  }

  lemma MatchMarksAll(listing: seq<string>, inst: string, series: string, repo: string)
    ensures forall i :: 0 <= i < |listing| ==>
              MatchMarks(listing, inst, series, repo)[i] == Matches(listing[i], inst, series, repo)
  {
    forall i | 0 <= i < |listing|
      ensures MatchMarks(listing, inst, series, repo)[i] == Matches(listing[i], inst, series, repo)
    {
      MatchMarksAt(listing, inst, series, repo, i);
    }
  }

  /** `dir_path + name` for every name. */
  function Prefixed(dir: string, names: seq<string>): (r: seq<string>)
    ensures |r| == |names|
    ensures forall k {:trigger r[k]} :: 0 <= k < |names| ==> r[k] == dir + names[k]
  {
    seq(|names|, k requires 0 <= k < |names| => dir + names[k])
  }

  lemma PrefixedSnoc(dir: string, names: seq<string>, name: string)
    ensures Prefixed(dir, names + [name]) == Prefixed(dir, names) + [dir + name]
  {
  }

  /** Choosing among the joined paths is choosing among the names, then joining. */
  lemma {:induction false} SelectPrefixed(dir: string, names: seq<string>, marks: seq<bool>)
    requires |marks| == |names|
    ensures Select(Prefixed(dir, names), marks) == Prefixed(dir, Select(names, marks))
    decreases |names|
  {
    if names != [] {
      var front, m := DropLast(names), DropLast(marks);
      var paths := Prefixed(dir, names);
      assert DropLast(paths) == Prefixed(dir, front);
      assert Last(paths) == dir + Last(names);
      SelectPrefixed(dir, front, m);
      if Last(marks) {
        PrefixedSnoc(dir, Select(front, m), Last(names));
      } else {
        assert Select(names, marks) == Select(front, m) + [];
      }
    }
  }

  /** parse_folder. `listing` is the directory listing, already in natural sort
      order. The loop stops at the first name it cannot classify; otherwise the
      result is `dir_path + name` for the names that match, in listing order. */
  method ParseFolder(dir: string, listing: seq<string>, inst: string, series: string, repo: string)
    returns (r: Result<seq<string>>)
    ensures r.Ok? <==> forall i :: 0 <= i < |listing| ==> Classify(listing[i], inst, series, repo).Ok?
    ensures r.Ok? ==> r.value == Prefixed(dir, Select(listing, MatchMarks(listing, inst, series, repo)))
    ensures r.Err? ==> exists j :: 0 <= j < |listing| && Classify(listing[j], inst, series, repo) == Err(r.error) &&
                        forall i :: 0 <= i < j ==> Classify(listing[i], inst, series, repo).Ok?
  {
    ghost var marks := MatchMarks(listing, inst, series, repo);
    var out: seq<string> := [];
    var i := 0;
    while i < |listing|
      invariant 0 <= i <= |listing|
      invariant forall k :: 0 <= k < i ==> Classify(listing[k], inst, series, repo).Ok?
      invariant out == Prefixed(dir, Select(listing[..i], marks[..i]))
    {
      var c := Classify(listing[i], inst, series, repo);
      if c.Err? {
        r := Err(c.error);
        assert Classify(listing[i], inst, series, repo) == Err(r.error);
        return;
      }
      ghost var before := Select(listing[..i], marks[..i]);
      SelectStep(listing, marks, i);
      MatchMarksAt(listing, inst, series, repo, i);
      if c.value {
        PrefixedSnoc(dir, before, listing[i]);
        out := out + [dir + listing[i]];
      }
      i := i + 1;
    }
    assert listing[..i] == listing && marks[..i] == marks;
    return Ok(out);
  }

  /** The filter's result is exactly the `dir_path`-prefixed subsequence of the
      listing at the matching positions, order preserved; a listing with no match
      gives an empty result. */
  lemma ParseFolderSelectsMatches(dir: string, listing: seq<string>, inst: string, series: string, repo: string)
    ensures var marks := MatchMarks(listing, inst, series, repo);
            var kept := Prefixed(dir, Select(listing, marks));
            var idx := MarkedIndices(marks);
            && |kept| == |idx|
            && StrictlyIncreasing(idx)
            && (forall k :: 0 <= k < |idx| ==> kept[k] == dir + listing[idx[k]])
            && (forall i :: 0 <= i < |listing| ==> (i in idx <==> Matches(listing[i], inst, series, repo)))
            && ((forall i :: 0 <= i < |listing| ==> !Matches(listing[i], inst, series, repo)) ==> kept == [])
  {
    var marks := MatchMarks(listing, inst, series, repo);
    var sel, idx := Select(listing, marks), MarkedIndices(marks);
    var kept := Prefixed(dir, sel);
    SelectIsSubsequence(listing, marks);
    forall k | 0 <= k < |idx| ensures kept[k] == dir + listing[idx[k]] {
      assert kept[k] == dir + sel[k];
    }
    forall i | 0 <= i < |listing| ensures i in idx <==> Matches(listing[i], inst, series, repo) {
      MatchMarksAt(listing, inst, series, repo, i);
    }
    if forall i :: 0 <= i < |listing| ==> !Matches(listing[i], inst, series, repo) {
      forall i | 0 <= i < |listing| ensures !marks[i] {
        MatchMarksAt(listing, inst, series, repo, i);
      }
      SelectNone(listing, marks);
    }
  }
}
