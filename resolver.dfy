/** Closest-timestamp resolution of the HMI loader (`get_HMI_data`, no-download
    path): every candidate at the minimum time distance from the target is kept,
    and the distinct time-stamp tokens of the selection are listed. Times are whole
    seconds; the parse of a time-stamp key into an instant is the caller's `parseTime`. */
module TimestampResolver {
  import opened Outcomes
  import opened Text
  import opened Selection
  import opened FileFilter

  /** `f.split('.')[2]`: the time-stamp token of a file path. */
  function StampToken(f: string): Result<string>
  {
    var t := Split(f, '.');
    if |t| < 3 then Err(TooFewTokens(f)) else Ok(t[2])
  }

  predicate WellFormed(files: seq<string>)
  {
    forall i :: 0 <= i < |files| ==> StampToken(files[i]).Ok?
  }

  /** `'_'.join(token.split('_')[0:2])`: the date and time fields of a token such
      as `20140910_120000_TAI`. It is the token cut before its second `_`, so it is
      always a prefix of the token. */
  function TimeKey(token: string): (k: string)
    ensures k <= token
  {
    JoinSplit(token, '_');
    JoinTakeIsPrefix(Split(token, '_'), 2, '_');
    Join(Take(Split(token, '_'), 2), '_')
  }

  /** For a token `date_time_rest` whose date and time fields have no `_`, the key
      is `date_time`: the token cut before its second `_`. */
  lemma TimeKeyCutsAtSecondUnderscore(date: string, time: string, rest: string)
    requires '_' !in date && '_' !in time
    ensures TimeKey(date + "_" + time + "_" + rest) == date + "_" + time
  {
    var token := date + "_" + time + "_" + rest;
    assert token == date + ['_'] + (time + ['_'] + rest);
    SplitAppend(time, rest, '_');
    SplitAppend(date, time + ['_'] + rest, '_');
    var parts := Split(token, '_');
    assert parts == [date, time] + Split(rest, '_');
    assert Take(parts, 2) == [date, time];
    assert Join([time], '_') == time;
    assert Join([date, time], '_') == date + ['_'] + Join([time], '_');
  }

  /** `abs(t.gps - user_date.gps)` for the instant encoded in the file's name. */
  function Distance(f: string, target: int, parseTime: string -> int): nat
    requires StampToken(f).Ok?
  {
    var t := parseTime(TimeKey(StampToken(f).value));
    if t >= target then t - target else target - t
  }

  /** The list comprehension of differences; it raises at the first file whose
      name has no third dot-token. */
  function Distances(files: seq<string>, target: int, parseTime: string -> int): (r: Result<seq<nat>>)
    ensures r.Ok? <==> WellFormed(files)
    ensures r.Ok? ==> |r.value| == |files|
    ensures r.Err? ==> exists j :: 0 <= j < |files| && StampToken(files[j]) == Err(r.error) &&
                        forall i :: 0 <= i < j ==> StampToken(files[i]).Ok?
  {
    if files == [] then Ok([])
    else
      var front := DropLast(files);
      assert forall i :: 0 <= i < |front| ==> front[i] == files[i];
      match Distances(front, target, parseTime)
      case Err(e) => Err(e)
      case Ok(ds) =>
        match StampToken(Last(files))
        case Err(e) => Err(e)
        case Ok(_) => Ok(ds + [Distance(Last(files), target, parseTime)])
  }

  /** Entry `i` of the differences is the distance of file `i`. */
  lemma {:induction false} DistancesAt(files: seq<string>, target: int, parseTime: string -> int, i: nat)
    requires WellFormed(files) && i < |files|
    ensures Distances(files, target, parseTime).value[i] == Distance(files[i], target, parseTime)
    decreases |files|
  {
    var front := DropLast(files);
    assert WellFormed(front) by {
      assert forall k :: 0 <= k < |front| ==> front[k] == files[k];
    }
    if i < |front| {
      DistancesAt(front, target, parseTime, i);
      assert front[i] == files[i];
    }
  }

  /** `d.min()` of a non-empty list. */
  function MinOf(ds: seq<nat>): (m: nat)
    requires |ds| > 0
    ensures m in ds
    ensures forall i :: 0 <= i < |ds| ==> m <= ds[i]
  {
    if |ds| == 1 then ds[0]
    else
      var rest := MinOf(ds[1..]);
      assert forall i :: 1 <= i < |ds| ==> ds[i] == ds[1..][i - 1];
      if ds[0] <= rest then ds[0] else rest
  }

  /** `d == d.min()`, element by element. */
  function EqualMarks(ds: seq<nat>, m: nat): (r: seq<bool>)
    ensures |r| == |ds|
    ensures forall i {:trigger r[i]} :: 0 <= i < |ds| ==> r[i] == (ds[i] == m)
  {
    if ds == [] then [] else EqualMarks(DropLast(ds), m) + [Last(ds) == m]
  }

  /** A candidate is nearest when no other candidate is closer to the target. */
  predicate Nearest(files: seq<string>, i: nat, target: int, parseTime: string -> int)
    requires WellFormed(files) && i < |files|
  {
    forall j :: 0 <= j < |files| ==> Distance(files[i], target, parseTime) <= Distance(files[j], target, parseTime)
  }

  /** `d == d.min()`: the marks of the candidates at the minimum distance. */
  function NearestMarks(files: seq<string>, target: int, parseTime: string -> int): (r: seq<bool>)
    requires WellFormed(files)
    ensures |r| == |files|
  {
    var ds := Distances(files, target, parseTime).value;
    if ds == [] then [] else EqualMarks(ds, MinOf(ds))
  }

  /** Mark `i` is set exactly when candidate `i` is nearest: no other candidate
      is closer to the target. */
  lemma NearestMarksAt(files: seq<string>, target: int, parseTime: string -> int, i: nat)
    requires WellFormed(files) && i < |files|
    ensures NearestMarks(files, target, parseTime)[i] == Nearest(files, i, target, parseTime)
  {
    MinMarkIsNearest(files, target, parseTime, i);
  }

  /** `np.asarray(files)[np.where(d == d.min())]`, the corrected resolver of the
      model: no candidate is the "no data near the target" failure; otherwise the
      result is the non-empty subsequence of candidates at minimum distance, ties
      all kept in their original order. */
  function Resolve(files: seq<string>, target: int, parseTime: string -> int): (r: Result<seq<string>>)
    ensures r.Ok? <==> |files| > 0 && WellFormed(files)
    ensures files == [] ==> r == Err(NoMatch)
    ensures r.Ok? ==> r.value == Select(files, NearestMarks(files, target, parseTime))
    ensures r.Ok? ==> |r.value| > 0 && WellFormed(r.value)
  {
    match Distances(files, target, parseTime)
    case Err(e) => Err(e)
    case Ok(ds) =>
      if |ds| == 0 then Err(NoMatch)
      else
        var marks := EqualMarks(ds, MinOf(ds));
        NearestSelectionNonEmpty(files, target, parseTime);
        Ok(Select(files, marks))
  }

  /** A candidate is at the minimum of the differences exactly when it is nearest. */
  lemma MinMarkIsNearest(files: seq<string>, target: int, parseTime: string -> int, i: nat)
    requires WellFormed(files) && i < |files|
    ensures var ds := Distances(files, target, parseTime).value;
            ds[i] == MinOf(ds) <==> Nearest(files, i, target, parseTime)
  {
    var ds := Distances(files, target, parseTime).value;
    var m := MinOf(ds);
    DistancesAt(files, target, parseTime, i);
    var j :| 0 <= j < |ds| && ds[j] == m;
    DistancesAt(files, target, parseTime, j);
    if ds[i] == m {
      forall k | 0 <= k < |files|
        ensures Distance(files[i], target, parseTime) <= Distance(files[k], target, parseTime)
      {
        DistancesAt(files, target, parseTime, k);
      }
    }
  }

  /** Some candidate is always nearest, so the selection of a non-empty list is
      non-empty; and it consists of candidates, so it is well formed. */
  lemma NearestSelectionNonEmpty(files: seq<string>, target: int, parseTime: string -> int)
    requires WellFormed(files) && |files| > 0
    ensures var sel := Select(files, NearestMarks(files, target, parseTime));
            |sel| > 0 && WellFormed(sel)
  {
    var marks := NearestMarks(files, target, parseTime);
    var ds := Distances(files, target, parseTime).value;
    var j :| 0 <= j < |ds| && ds[j] == MinOf(ds);
    SelectIsSubsequence(files, marks);
    var idx := MarkedIndices(marks);
    assert j in idx;
    var sel := Select(files, marks);
    forall k | 0 <= k < |sel| ensures StampToken(sel[k]).Ok? {
      assert sel[k] == files[idx[k]];
    }
  }

  /** What the selection means position by position: a candidate is selected
      exactly when it is nearest, the selection keeps the candidates' order, and
      every selected candidate is at the minimum distance over all candidates. */
  lemma ResolveSelectsNearest(files: seq<string>, target: int, parseTime: string -> int)
    requires |files| > 0 && WellFormed(files)
    ensures var sel := Resolve(files, target, parseTime).value;
            var idx := MarkedIndices(NearestMarks(files, target, parseTime));
            && |sel| == |idx| && StrictlyIncreasing(idx)
            && (forall k :: 0 <= k < |idx| ==> sel[k] == files[idx[k]])
            && (forall i :: 0 <= i < |files| ==> (i in idx <==> Nearest(files, i, target, parseTime)))
  {
    SelectIsSubsequence(files, NearestMarks(files, target, parseTime));
    forall i | 0 <= i < |files|
      ensures NearestMarks(files, target, parseTime)[i] == Nearest(files, i, target, parseTime)
    {
      NearestMarksAt(files, target, parseTime, i);
    }
  }

  /** When every candidate carries the same time stamp, all of them are selected. */
  lemma ResolveKeepsAllTies(files: seq<string>, target: int, parseTime: string -> int)
    requires |files| > 0 && WellFormed(files)
    requires forall i :: 0 <= i < |files| ==> StampToken(files[i]) == StampToken(files[0])
    ensures Resolve(files, target, parseTime) == Ok(files)
  {
    var marks := NearestMarks(files, target, parseTime);
    forall i | 0 <= i < |files| ensures marks[i] {
      NearestMarksAt(files, target, parseTime, i);
      assert forall j :: 0 <= j < |files| ==> Distance(files[j], target, parseTime) == Distance(files[0], target, parseTime);
    }
    SelectAll(files, marks);
  }

  /** The Stokes branch as written: with at most one candidate `tstamps_diff`
      is never assigned and the next line fails. */
  function ResolveStokesAsWritten(files: seq<string>, target: int, parseTime: string -> int): (r: Result<seq<string>>)
    ensures |files| <= 1 ==> r == Err(UnboundDifferences)
    ensures |files| > 1 ==> r == Resolve(files, target, parseTime)
  {
    if |files| > 1 then Resolve(files, target, parseTime) else Err(UnboundDifferences)
  }

  /** The inversion branch as written: with at most one candidate the function
      returns None, reporting that no files were found. */
  function ResolveMagvecAsWritten(files: seq<string>, target: int, parseTime: string -> int): (r: Result<seq<string>>)
    ensures |files| <= 1 ==> r == Err(NoFilesNearDate)
    ensures |files| > 1 ==> r == Resolve(files, target, parseTime)
  {
    if |files| > 1 then Resolve(files, target, parseTime) else Err(NoFilesNearDate)
  }

  /** A lone well-formed candidate is the closest one, yet both branches as
      written reject it. */
  lemma LoneCandidateRejected(f: string, target: int, parseTime: string -> int)
    requires StampToken(f).Ok?
    ensures Resolve([f], target, parseTime) == Ok([f])
    ensures ResolveStokesAsWritten([f], target, parseTime) == Err(UnboundDifferences)
    ensures ResolveMagvecAsWritten([f], target, parseTime) == Err(NoFilesNearDate)
  {
    ResolveKeepsAllTies([f], target, parseTime);
  }

  /** The time-stamp token of every file. */
  function StampTokens(files: seq<string>): (r: seq<string>)
    requires WellFormed(files)
    ensures |r| == |files|
  {
    if files == [] then []
    else
      assert WellFormed(DropLast(files)) by {
        assert forall i :: 0 <= i < |files| - 1 ==> DropLast(files)[i] == files[i];
      }
      StampTokens(DropLast(files)) + [StampToken(Last(files)).value]
  }

  /** Entry `i` of the token list is the token of file `i`. */
  lemma {:induction false} StampTokensAt(files: seq<string>, i: nat)
    requires WellFormed(files) && i < |files|
    ensures StampToken(files[i]) == Ok(StampTokens(files)[i])
    decreases |files|
  {
    var front := DropLast(files);
    assert WellFormed(front) by {
      assert forall k :: 0 <= k < |front| ==> front[k] == files[k];
    }
    if i < |front| {
      StampTokensAt(front, i);
      assert StampTokens(files)[i] == StampTokens(front)[i];
      assert front[i] == files[i];
    }
  }

  lemma {:induction false} StampTokensPrefix(files: seq<string>, n: nat)
    requires WellFormed(files) && n <= |files|
    ensures WellFormed(files[..n]) && StampTokens(files[..n]) == StampTokens(files)[..n]
    decreases |files|
  {
    assert WellFormed(files[..n]) by {
      assert forall k :: 0 <= k < n ==> files[..n][k] == files[k];
    }
    if n == |files| {
      assert files[..n] == files;
    } else {
      var front := DropLast(files);
      assert WellFormed(front) by {
        assert forall k :: 0 <= k < |front| ==> front[k] == files[k];
      }
      assert front[..n] == files[..n];
      StampTokensPrefix(front, n);
      assert StampTokens(files) == StampTokens(front) + [StampToken(Last(files)).value];
    }
  }

  /** One more file in the de-duplication of time-stamp tokens. */
  lemma DedupStampStep(files: seq<string>, i: nat)
    requires WellFormed(files) && i < |files|
    ensures WellFormed(files[..i]) && WellFormed(files[..i + 1])
    ensures var d := Dedup(StampTokens(files[..i]));
            var tok := StampToken(files[i]).value;
            Dedup(StampTokens(files[..i + 1])) == if tok in d then d else d + [tok]
  {
    StampTokensPrefix(files, i);
    StampTokensPrefix(files, i + 1);
    var all := StampTokens(files);
    StampTokensAt(files, i);
    assert all[..i + 1] == all[..i] + [all[i]];
    assert DropLast(all[..i + 1]) == all[..i];
  }

  /** The unique-time-stamp loop: each selected file's third dot-token, listed
      once, in order of first occurrence. */
  method UniqueTimestamps(files: seq<string>) returns (unique: seq<string>)
    requires WellFormed(files)
    ensures unique == Dedup(StampTokens(files))
    ensures NoDuplicates(unique)
    ensures forall x :: x in unique <==> exists i :: 0 <= i < |files| && StampToken(files[i]) == Ok(x)
  {
    unique := [];
    var i := 0;
    assert files[..0] == [];
    while i < |files|
      invariant 0 <= i <= |files|
      invariant WellFormed(files[..i]) && unique == Dedup(StampTokens(files[..i]))
    {
      var tok := StampToken(files[i]).value;
      DedupStampStep(files, i);
      if tok !in unique {
        unique := unique + [tok];
      }
      i := i + 1;
    }
    assert files[..i] == files;
    UniqueStampsMeaning(files);
  }

  /** The de-duplicated tokens list every file's time-stamp token, and only those,
      each once. */
  lemma UniqueStampsMeaning(files: seq<string>)
    requires WellFormed(files)
    ensures NoDuplicates(Dedup(StampTokens(files)))
    ensures forall x :: x in Dedup(StampTokens(files)) <==> exists i :: 0 <= i < |files| && StampToken(files[i]) == Ok(x)
  {
    var toks := StampTokens(files);
    DedupMembers(toks);
    forall x ensures x in Dedup(toks) <==> exists i :: 0 <= i < |files| && StampToken(files[i]) == Ok(x) {
      assert x in Dedup(toks) <==> x in toks;
      StampListed(files, x);
    }
  }

  /** A token is in the token list exactly when some file carries it. */
  lemma StampListed(files: seq<string>, x: string)
    requires WellFormed(files)
    ensures x in StampTokens(files) <==> exists i :: 0 <= i < |files| && StampToken(files[i]) == Ok(x)
  {
    var toks := StampTokens(files);
    if x in toks {
      var k :| 0 <= k < |toks| && toks[k] == x;
      StampTokensAt(files, k);
    }
    if exists i :: 0 <= i < |files| && StampToken(files[i]) == Ok(x) {
      var k :| 0 <= k < |files| && StampToken(files[k]) == Ok(x);
      StampTokensAt(files, k);
    }
  }

  /** The inversion branch's unique-time-stamp loop as written: it runs over the
      indices of the selected STOKES files while reading the selected inversion
      files, so it fails when there are more Stokes files than inversion files and
      ignores the inversion files past that count. */
  method UniqueTimestampsAsWritten(stokesCount: nat, files: seq<string>) returns (r: Result<seq<string>>)
    requires WellFormed(files)
    ensures r.Ok? <==> stokesCount <= |files|
    ensures r.Err? ==> r.error == IndexOutOfRange(|files|)
    ensures r.Ok? ==> WellFormed(files[..stokesCount]) && r.value == Dedup(StampTokens(files[..stokesCount]))
  {
    var unique: seq<string> := [];
    var i := 0;
    assert files[..0] == [];
    while i < stokesCount
      invariant 0 <= i <= stokesCount && i <= |files|
      invariant WellFormed(files[..i]) && unique == Dedup(StampTokens(files[..i]))
    {
      if i >= |files| {
        return Err(IndexOutOfRange(i));
      }
      var tok := StampToken(files[i]).value;
      DedupStampStep(files, i);
      if tok !in unique {
        unique := unique + [tok];
      }
      i := i + 1;
    }
    return Ok(unique);
  }

  /** The typical local layout (24 selected Stokes files, three selected inversion
      files for field, inclination and azimuth) makes the loop as written fail. */
  method TypicalInversionDedupFails(stokes: seq<string>, inversion: seq<string>) returns (r: Result<seq<string>>)
    requires |stokes| == 24 && |inversion| == 3 && WellFormed(inversion)
    ensures r == Err(IndexOutOfRange(3))
  {
    r := UniqueTimestampsAsWritten(|stokes|, inversion);
  }

  // ---------------------------------------------------------------------------
  // The directory part of a path
  // ---------------------------------------------------------------------------

  /** A directory without a dot leaves the token of a name where it was. */
  lemma StampTokenUnderDirectory(dir: string, name: string)
    requires '.' !in dir
    ensures StampToken(dir + name).Ok? == StampToken(name).Ok?
    ensures StampToken(name).Ok? ==> StampToken(dir + name).value == StampToken(name).value
  {
    SplitPrefix(dir, name, '.');
  }

  /** `parse_folder` returns `user_dir + name`, and the token is read off the whole
      path. A dot in the directory, as in `/Users/jane.doe/Data/SDO/`, makes the
      series the third token of the path, where the file name alone has its time
      stamp there. */
  lemma DottedDirectoryShiftsToken(home: string, user: string, inst: string, series: string,
                                   stamp: string, rest: string)
    requires '.' !in home && '.' !in user && '.' !in inst && '.' !in series && '.' !in stamp
    ensures var name := inst + "." + series + "." + stamp + "." + rest;
            && StampToken(name) == Ok(stamp)
            && StampToken(home + "." + user + name) == Ok(series)
  {
    var tail := stamp + ['.'] + rest;
    SplitAppend(stamp, rest, '.');
    SplitAppend(series, tail, '.');
    SplitAppend(inst, series + ['.'] + tail, '.');
    assert inst + "." + series + "." + stamp + "." + rest == inst + ['.'] + (series + ['.'] + tail);
    assert '.' !in user + inst;
    SplitAppend(user + inst, series + ['.'] + tail, '.');
    SplitAppend(home, (user + inst) + ['.'] + (series + ['.'] + tail), '.');
    assert home + "." + user + (inst + "." + series + "." + stamp + "." + rest)
        == home + ['.'] + ((user + inst) + ['.'] + (series + ['.'] + tail));
  }

  lemma WellFormedUnderDirectory(dir: string, names: seq<string>)
    requires '.' !in dir
    ensures WellFormed(Prefixed(dir, names)) == WellFormed(names)
  {
    forall i | 0 <= i < |names| ensures StampToken(Prefixed(dir, names)[i]).Ok? == StampToken(names[i]).Ok? {
      StampTokenUnderDirectory(dir, names[i]);
    }
  }

  /** Under a directory without a dot, the same candidates are nearest. */
  lemma NearestMarksUnderDirectory(dir: string, names: seq<string>, target: int, parseTime: string -> int)
    requires '.' !in dir && WellFormed(names)
    ensures WellFormed(Prefixed(dir, names))
    ensures NearestMarks(Prefixed(dir, names), target, parseTime) == NearestMarks(names, target, parseTime)
  {
    var paths := Prefixed(dir, names);
    WellFormedUnderDirectory(dir, names);
    forall j | 0 <= j < |names|
      ensures Distance(paths[j], target, parseTime) == Distance(names[j], target, parseTime)
    {
      StampTokenUnderDirectory(dir, names[j]);
    }
    forall i | 0 <= i < |names|
      ensures NearestMarks(paths, target, parseTime)[i] == NearestMarks(names, target, parseTime)[i]
    {
      NearestMarksAt(paths, target, parseTime, i);
      NearestMarksAt(names, target, parseTime, i);
    }
  }

  /** Resolving the joined paths agrees with resolving the bare names and joining
      afterwards, as long as the directory has no dot. */
  lemma ResolveUnderDirectory(dir: string, names: seq<string>, target: int, parseTime: string -> int)
    requires '.' !in dir
    ensures Resolve(Prefixed(dir, names), target, parseTime).Ok? == Resolve(names, target, parseTime).Ok?
    ensures Resolve(names, target, parseTime).Ok? ==>
              Resolve(Prefixed(dir, names), target, parseTime).value == Prefixed(dir, Resolve(names, target, parseTime).value)
  {
    WellFormedUnderDirectory(dir, names);
    if |names| > 0 && WellFormed(names) {
      NearestMarksUnderDirectory(dir, names, target, parseTime);
      SelectPrefixed(dir, names, NearestMarks(names, target, parseTime));
    }
  }

  /** ... and so are the reported time stamps. */
  lemma StampTokensUnderDirectory(dir: string, names: seq<string>)
    requires '.' !in dir && WellFormed(names)
    ensures WellFormed(Prefixed(dir, names))
    ensures StampTokens(Prefixed(dir, names)) == StampTokens(names)
  {
    var paths := Prefixed(dir, names);
    WellFormedUnderDirectory(dir, names);
    forall i | 0 <= i < |names| ensures StampTokens(paths)[i] == StampTokens(names)[i] {
      StampTokensAt(paths, i);
      StampTokensAt(names, i);
      StampTokenUnderDirectory(dir, names[i]);
    }
  }
}
