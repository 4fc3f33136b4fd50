/** An asset's display name in closed form, whatever its observations say: a succession of
    names, each given by one observation. */
module DisplayNames {
  import opened Options
  import opened AssetObservations
  import opened AssetStores
  import opened AssetRankings

  /** The name that an observation gives when it gives one. */
  function GivenName(o: AssetObservation): Option<string> {
    if HasValue(o.displayName) && (o.sourceId == SOURCE_MDNS || o.sourceId == SOURCE_DHCP || !HasValue(o.hostname))
    then o.displayName else o.hostname
  }

  /** The name goes back to the last mDNS name, or without one to the first name of any kind. */
  ghost predicate IsNameBase(history: seq<AssetObservation>, i: nat) {
    && i < |history|
    && (forall j :: i < j < |history| ==> !MdnsSaysName(history[j]))
    && (MdnsSaysName(history[i])
        || (SaysAnyName(history[i]) && forall j :: 0 <= j < i ==> !SaysAnyName(history[j])))
  }

  /** A DHCP name takes the place of a name that is the hostname at that time. */
  predicate Renames(history: seq<AssetObservation>, name: Option<string>, j: nat)
    requires j < |history|
  {
    && history[j].sourceId == SOURCE_DHCP && HasValue(history[j].displayName)
    && name == LastSaid(history[..j + 1], HostnameOf)
  }

  function EndOfReign(history: seq<AssetObservation>, givers: seq<nat>, m: nat): nat {
    if m + 1 < |givers| then givers[m + 1] else |history|
  }

  /** The observations that gave the name, one after the other: the base, and then each time
      the first DHCP observation that takes the place of the name before. */
  ghost predicate Succession(history: seq<AssetObservation>, givers: seq<nat>) {
    && givers != [] && InOrder(history, givers) && IsNameBase(history, givers[0])
    && EachRenames(history, givers) && NoneBetween(history, givers)
  }

  ghost predicate InOrder(history: seq<AssetObservation>, givers: seq<nat>) {
    && (forall m :: 0 <= m < |givers| ==> givers[m] < |history|)
    && (forall m, k :: 0 <= m < k < |givers| ==> givers[m] < givers[k])
  }

  ghost predicate EachRenames(history: seq<AssetObservation>, givers: seq<nat>)
    requires InOrder(history, givers)
  {
    forall m :: 0 < m < |givers| ==> Renames(history, GivenName(history[givers[m - 1]]), givers[m])
  }

  ghost predicate NoneBetween(history: seq<AssetObservation>, givers: seq<nat>)
    requires InOrder(history, givers)
  {
    forall m, j :: 0 <= m < |givers| && givers[m] < j < |history| && j < EndOfReign(history, givers, m) ==>
      !Renames(history, GivenName(history[givers[m]]), j)
  }

  function Successor(history: seq<AssetObservation>, givers: seq<nat>): Option<string>
    requires givers != [] && givers[|givers| - 1] < |history|
  {
    GivenName(history[givers[|givers| - 1]])
  }

  lemma SourcesDiffer()
    ensures SOURCE_DHCP != SOURCE_MDNS
  {
    assert SOURCE_DHCP[0] == 'd' && SOURCE_MDNS[0] == 'm';
  }

  lemma {:induction false} SilenceGivesNoName(history: seq<AssetObservation>)
    requires forall i :: 0 <= i < |history| ==> !SaysAnyName(history[i])
    ensures NamesOf(history) == (None, None)
  {
    if history != [] {
      SilenceGivesNoName(history[..|history| - 1]);
    }
  }

  lemma GiversSayNames(history: seq<AssetObservation>, givers: seq<nat>, m: nat)
    requires Succession(history, givers) && m < |givers|
    ensures SaysAnyName(history[givers[m]]) && HasValue(GivenName(history[givers[m]]))
  {
    if m > 0 {
      assert Renames(history, GivenName(history[givers[m - 1]]), givers[m]);
    }
  }

  /** What one more observation does to a name that is set. */
  lemma NameStep(displayName: Option<string>, hostname: Option<string>, o: AssetObservation)
    requires HasValue(displayName) && !MdnsSaysName(o)
    ensures var host := if HasValue(o.hostname) then o.hostname else hostname;
            NamesAfter(displayName, hostname, o) ==
            (if o.sourceId == SOURCE_DHCP && HasValue(o.displayName) && displayName == host
             then o.displayName else displayName, host)
  {
    SourcesDiffer();
  }

  lemma FirstNameStep(o: AssetObservation)
    requires SaysAnyName(o)
    ensures NamesAfter(None, None, o).0 == GivenName(o)
  {
  }

  lemma MdnsStep(displayName: Option<string>, hostname: Option<string>, o: AssetObservation)
    requires MdnsSaysName(o)
    ensures NamesAfter(displayName, hostname, o).0 == GivenName(o)
  {
  }

  lemma EarlierRenames(history: seq<AssetObservation>, name: Option<string>, j: nat)
    requires j < |history| - 1
    ensures Renames(history[..|history| - 1], name, j) == Renames(history, name, j)
  {
    assert history[..|history| - 1][..j + 1] == history[..j + 1];
  }

  /** A succession that does not end with the last observation is one of the history before. */
  lemma SuccessionBefore(history: seq<AssetObservation>, givers: seq<nat>)
    requires Succession(history, givers) && givers[|givers| - 1] < |history| - 1
    ensures Succession(history[..|history| - 1], givers)
  {
    var before := history[..|history| - 1];
    assert InOrder(before, givers);
    forall m | 0 < m < |givers| ensures Renames(before, GivenName(before[givers[m - 1]]), givers[m]) {
      EarlierRenames(history, GivenName(history[givers[m - 1]]), givers[m]);
    }
    forall m, j | 0 <= m < |givers| && givers[m] < j < |before| && j < EndOfReign(before, givers, m)
      ensures !Renames(before, GivenName(before[givers[m]]), j)
    {
      EarlierRenames(history, GivenName(history[givers[m]]), j);
    }
  }

  lemma SuccessionFront(history: seq<AssetObservation>, givers: seq<nat>)
    requires Succession(history, givers) && |givers| > 1 && givers[|givers| - 1] == |history| - 1
    ensures Succession(history[..|history| - 1], givers[..|givers| - 1])
  {
    FrontRenames(history, givers);
    FrontBetween(history, givers);
    assert IsNameBase(history[..|history| - 1], givers[0]);
  }

  lemma FrontRenames(history: seq<AssetObservation>, givers: seq<nat>)
    requires InOrder(history, givers) && EachRenames(history, givers)
    requires |givers| > 1 && givers[|givers| - 1] == |history| - 1
    ensures InOrder(history[..|history| - 1], givers[..|givers| - 1])
    ensures EachRenames(history[..|history| - 1], givers[..|givers| - 1])
  {
    var before, front := history[..|history| - 1], givers[..|givers| - 1];
    forall m | 0 < m < |front| ensures Renames(before, GivenName(before[front[m - 1]]), front[m]) {
      assert front[m - 1] == givers[m - 1] && front[m] == givers[m];
      EarlierRenames(history, GivenName(history[givers[m - 1]]), givers[m]);
    }
  }

  lemma FrontBetween(history: seq<AssetObservation>, givers: seq<nat>)
    requires InOrder(history, givers) && NoneBetween(history, givers)
    requires |givers| > 1 && givers[|givers| - 1] == |history| - 1
    requires InOrder(history[..|history| - 1], givers[..|givers| - 1])
    ensures NoneBetween(history[..|history| - 1], givers[..|givers| - 1])
  {
    var before, front := history[..|history| - 1], givers[..|givers| - 1];
    forall m, j | 0 <= m < |front| && front[m] < j < |before| && j < EndOfReign(before, front, m)
      ensures !Renames(before, GivenName(before[front[m]]), j)
    {
      assert front[m] == givers[m] && j < EndOfReign(history, givers, m);
      EarlierRenames(history, GivenName(history[givers[m]]), j);
    }
  }

  /** Every succession of a history ends with its name. */
  lemma {:induction false} SuccessorIsTheName(history: seq<AssetObservation>, givers: seq<nat>)
    requires Succession(history, givers)
    ensures NamesOf(history).0 == Successor(history, givers)
    decreases |history|
  {
    var n := |history| - 1;
    var before, last := history[..n], history[n];
    HostnameIsLastSaid(history);
    assert history[..n + 1] == history;
    if givers[|givers| - 1] < n {
      SuccessionBefore(history, givers);
      SuccessorIsTheName(before, givers);
      GiversSayNames(history, givers, |givers| - 1);
      assert !Renames(history, Successor(history, givers), n);
      NameStep(NamesOf(before).0, NamesOf(before).1, last);
    } else if |givers| > 1 {
      var front := givers[..|givers| - 1];
      SuccessionFront(history, givers);
      SuccessorIsTheName(before, front);
      GiversSayNames(history, givers, |givers| - 2);
      assert Renames(history, GivenName(history[givers[|givers| - 2]]), n);
      SourcesDiffer();
      NameStep(NamesOf(before).0, NamesOf(before).1, last);
    } else if MdnsSaysName(last) {
      MdnsStep(NamesOf(before).0, NamesOf(before).1, last);
    } else {
      SilenceGivesNoName(before);
      FirstNameStep(last);
    }
  }

  lemma {:induction false} SuccessionExists(history: seq<AssetObservation>) returns (givers: seq<nat>)
    requires exists i :: 0 <= i < |history| && SaysAnyName(history[i])
    ensures Succession(history, givers)
    decreases |history|
  {
    var n := |history| - 1;
    var before, last := history[..n], history[n];
    if MdnsSaysName(last) || forall i :: 0 <= i < n ==> !SaysAnyName(before[i]) {
      givers := [n];
      assert IsNameBase(history, n);
    } else {
      var earlier := SuccessionExists(before);
      givers := ExtendSuccession(history, earlier);
    }
  }

  lemma ExtendSuccession(history: seq<AssetObservation>, earlier: seq<nat>) returns (givers: seq<nat>)
    requires history != [] && Succession(history[..|history| - 1], earlier)
    requires !MdnsSaysName(history[|history| - 1])
    ensures Succession(history, givers)
  {
    var n := |history| - 1;
    var before := history[..n];
    assert IsNameBase(history, earlier[0]);
    LaterRenames(history, earlier);
    if Renames(history, Successor(before, earlier), n) {
      givers := earlier + [n];
      OneMoreGiver(history, earlier);
    } else {
      givers := earlier;
      forall m, j | 0 <= m < |givers| && givers[m] < j < |history| && j < EndOfReign(history, givers, m)
        ensures !Renames(history, GivenName(history[givers[m]]), j)
      {
        if j == n {
          assert m == |earlier| - 1;
        }
      }
    }
  }

  ghost predicate NoneBetweenYet(history: seq<AssetObservation>, earlier: seq<nat>)
    requires history != [] && InOrder(history, earlier)
  {
    var before := history[..|history| - 1];
    forall m, j :: 0 <= m < |earlier| && earlier[m] < j < |before| && j < EndOfReign(before, earlier, m) ==>
      !Renames(history, GivenName(history[earlier[m]]), j)
  }

  lemma OneMoreGiver(history: seq<AssetObservation>, earlier: seq<nat>)
    requires history != [] && earlier != [] && InOrder(history[..|history| - 1], earlier)
    requires InOrder(history, earlier) && EachRenames(history, earlier) && NoneBetweenYet(history, earlier)
    requires Renames(history, Successor(history, earlier), |history| - 1)
    ensures var givers := earlier + [|history| - 1 as nat];
            InOrder(history, givers) && EachRenames(history, givers) && NoneBetween(history, givers)
  {
    var n: nat := |history| - 1;
    var before, givers := history[..n], earlier + [n];
    OneMoreRenames(history, earlier);
    forall m, j | 0 <= m < |givers| && givers[m] < j < |history| && j < EndOfReign(history, givers, m)
      ensures !Renames(history, GivenName(history[givers[m]]), j)
    {
      assert givers[m] == earlier[m] && j < EndOfReign(before, earlier, m);
    }
  }

  lemma OneMoreRenames(history: seq<AssetObservation>, earlier: seq<nat>)
    requires history != [] && earlier != [] && InOrder(history[..|history| - 1], earlier)
    requires InOrder(history, earlier) && EachRenames(history, earlier)
    requires Renames(history, Successor(history, earlier), |history| - 1)
    ensures var givers := earlier + [|history| - 1 as nat];
            InOrder(history, givers) && EachRenames(history, givers)
  {
    var n: nat := |history| - 1;
    var givers := earlier + [n];
    assert forall m :: 0 <= m < |earlier| ==> earlier[m] < n;
    forall m | 0 < m < |givers| ensures Renames(history, GivenName(history[givers[m - 1]]), givers[m]) {
      assert givers[m - 1] == earlier[m - 1];
    }
  }

  /** One more observation leaves the successions before it as they were. */
  lemma LaterRenames(history: seq<AssetObservation>, earlier: seq<nat>)
    requires history != [] && Succession(history[..|history| - 1], earlier)
    ensures InOrder(history, earlier) && EachRenames(history, earlier)
    ensures NoneBetweenYet(history, earlier)
  {
    var before := history[..|history| - 1];
    forall m | 0 < m < |earlier| ensures Renames(history, GivenName(history[earlier[m - 1]]), earlier[m]) {
      EarlierRenames(history, GivenName(history[earlier[m - 1]]), earlier[m]);
    }
    forall m, j | 0 <= m < |earlier| && earlier[m] < j < |before| && j < EndOfReign(before, earlier, m)
      ensures !Renames(history, GivenName(history[earlier[m]]), j)
    {
      EarlierRenames(history, GivenName(history[earlier[m]]), j);
    }
  }

  /** None if nobody gave a name, else the name that the last of the succession gave. */
  ghost predicate DisplayNameIs(name: Option<string>, history: seq<AssetObservation>) {
    if forall i :: 0 <= i < |history| ==> !SaysAnyName(history[i]) then name == None
    else exists givers :: Succession(history, givers) && name == Successor(history, givers)
  }

  /** The display name in closed form, whoever said what and in whatever order. */
  lemma NameIsSucceeded(history: seq<AssetObservation>)
    ensures DisplayNameIs(NamesOf(history).0, history)
  {
    if forall i :: 0 <= i < |history| ==> !SaysAnyName(history[i]) {
      SilenceGivesNoName(history);
    } else {
      var givers := SuccessionExists(history);
      SuccessorIsTheName(history, givers);
    }
  }
}
