/** Configuration that lists something per dogu, possibly in several places: keys to exclude, rsync patterns. */
module DoguLists {

  datatype DoguList = DoguList(dogu: string, values: seq<string>)

  /** Everything configured for a dogu, in order. */
  function ValuesFor(configured: seq<DoguList>, dogu: string): seq<string> {
    if configured == [] then []
    else
      var last := configured[|configured| - 1];
      ValuesFor(configured[..|configured| - 1], dogu) + if last.dogu == dogu then last.values else []
  }

  /** Every dogu has the values configured for it. */
  ghost predicate Collected(byDogu: map<string, seq<string>>, configured: seq<DoguList>) {
    forall d :: (if d in byDogu then byDogu[d] else []) == ValuesFor(configured, d)
  }

  /** Entries for the same dogu add up. */
  method Collect(configured: seq<DoguList>) returns (byDogu: map<string, seq<string>>)
    ensures Collected(byDogu, configured)
  {
    byDogu := map[];
    for i := 0 to |configured|
      invariant Collected(byDogu, configured[..i])
    {
      var c := configured[i];
      assert configured[..i + 1][..i] == configured[..i];
      byDogu := byDogu[c.dogu := (if c.dogu in byDogu then byDogu[c.dogu] else []) + c.values];
    }
    assert configured[..|configured|] == configured;
  }

  /** A value is listed for a dogu exactly when some entry for it lists the value. */
  lemma {:induction false} ListedSomewhere(configured: seq<DoguList>, dogu: string, value: string)
    ensures value in ValuesFor(configured, dogu) <==> exists c | c in configured :: c.dogu == dogu && value in c.values
  {
    if configured != [] {
      var front, last := configured[..|configured| - 1], configured[|configured| - 1];
      ListedSomewhere(front, dogu, value);
      assert configured == front + [last];
    }
  }
}
