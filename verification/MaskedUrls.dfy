/**
 * The mirror URLs shown masked (`rv-config/src/redact.rs`, `register_masked_url` and `mask`),
 * at the level of URL text: parsing a URL and trimming its trailing slashes happen before
 * `Register` and `Show`, and parsing the masked text again happens after `Show`.
 */
module MaskedUrls {
  datatype Mask = Mask(expanded: string, masked: string)

  /** `shown` is `expanded` or lies under it: the same text up to an end, `/`, `?` or `#`. */
  predicate Covers(expanded: string, shown: string) {
    expanded <= shown && (|shown| == |expanded| || shown[|expanded|] in "/?#")
  }

  lemma CoversMeans(expanded: string, shown: string)
    ensures Covers(expanded, shown) <==>
            || shown == expanded
            || exists rest :: shown in [expanded + "/" + rest, expanded + "?" + rest, expanded + "#" + rest]
  {
    if Covers(expanded, shown) && shown != expanded {
      var rest := shown[|expanded| + 1..];
      assert shown == expanded + [shown[|expanded|]] + rest;
      assert shown in [expanded + "/" + rest, expanded + "?" + rest, expanded + "#" + rest];
    }
  }

  /** Registration `i` of `log` counts: it masks something, and none before it did so for its URL. */
  ghost predicate Effective(log: seq<Mask>, i: int) {
    && 0 <= i < |log|
    && log[i].expanded != log[i].masked
    && forall j | 0 <= j < i :: log[j].expanded == log[i].expanded ==> log[j].expanded == log[j].masked
  }

  ghost predicate Known(log: seq<Mask>, mask: Mask) {
    exists i :: Effective(log, i) && log[i] == mask
  }

  /** The registration that decides how `shown` is printed: the longest one that covers it. */
  ghost predicate Decides(log: seq<Mask>, i: int, shown: string) {
    && Effective(log, i) && Covers(log[i].expanded, shown)
    && forall j | Effective(log, j) && Covers(log[j].expanded, shown) :: |log[j].expanded| <= |log[i].expanded|
  }

  /** At most one registration decides, so what is shown does not depend on the list order. */
  lemma OneDecides(log: seq<Mask>, i: int, j: int, shown: string)
    requires Decides(log, i, shown) && Decides(log, j, shown)
    ensures i == j
  {
    assert log[i].expanded == shown[..|log[i].expanded|] == log[j].expanded;
  }

  ghost predicate LongestFirst(urls: seq<Mask>) {
    forall i, j | 0 <= i < j < |urls| :: |urls[i].expanded| >= |urls[j].expanded|
  }

  /**
   * `urls` with `mask` pushed and sorted by falling length. The sort keeps equal lengths in
   * order, so in a list sorted before the push it moves `mask` behind those as long.
   */
  function Inserted(urls: seq<Mask>, mask: Mask): (sorted: seq<Mask>)
    ensures |sorted| == |urls| + 1
    ensures forall m :: m in sorted <==> m in urls || m == mask
    ensures LongestFirst(urls) ==> LongestFirst(sorted)
  {
    if urls == [] then [mask]
    else
      var last := urls[|urls| - 1];
      if |last.expanded| >= |mask.expanded| then urls + [mask]
      else
        var earlier := urls[..|urls| - 1];
        assert urls == earlier + [last];
        var sorted := Inserted(earlier, mask);
        assert LongestFirst(urls) ==> forall i | 0 <= i < |sorted| :: |sorted[i].expanded| >= |last.expanded| by {
          assert forall i | 0 <= i < |sorted| :: sorted[i] in sorted;
        }
        sorted + [last]
  }

  class MaskedUrls {
    var urls: seq<Mask>
    ghost var log: seq<Mask>

    /** The list holds exactly the registrations that count, the longest first. */
    ghost predicate Valid()
      reads this
    {
      && LongestFirst(urls)
      && (forall mask :: mask in urls <==> Known(log, mask))
    }

    constructor ()
      ensures Valid() && log == []
    {
      urls, log := [], [];
    }

    method Register(expanded: string, masked: string)
      requires Valid()
      modifies this
      ensures Valid() && log == old(log) + [Mask(expanded, masked)]
    {
      var mask := Mask(expanded, masked);
      LogGrows(log, mask);
      MaskedBefore(log, expanded);
      if expanded != masked && forall i | 0 <= i < |urls| :: urls[i].expanded != expanded {
        urls := Inserted(urls, mask);
      }
      log := log + [mask];
    }

    /** The text `mask` shows for `shown`. */
    method Show(shown: string) returns (text: string)
      requires Valid()
      ensures (text == shown && forall j | Effective(log, j) :: !Covers(log[j].expanded, shown)) ||
              exists i :: Decides(log, i, shown) && text == log[i].masked + shown[|log[i].expanded|..]
    {
      for k := 0 to |urls|
        invariant forall j | 0 <= j < k :: !Covers(urls[j].expanded, shown)
      {
        if Covers(urls[k].expanded, shown) {
          assert urls[k] in urls && Known(log, urls[k]);
          ghost var i :| Effective(log, i) && log[i] == urls[k];
          forall j | Effective(log, j) && Covers(log[j].expanded, shown)
            ensures |log[j].expanded| <= |log[i].expanded|
          {
            assert Known(log, log[j]);
            var at :| 0 <= at < |urls| && urls[at] == log[j];
          }
          return urls[k].masked + shown[|urls[k].expanded|..];
        }
      }
      forall j | Effective(log, j) ensures !Covers(log[j].expanded, shown) {
        assert Known(log, log[j]);
      }
      return shown;
    }
  }

  /** What one more registration adds. */
  lemma LogGrows(log: seq<Mask>, mask: Mask)
    ensures var longer := log + [mask];
            forall m :: Known(longer, m) <==> Known(log, m) || (m == mask && Effective(longer, |log|))
  {
    var longer := log + [mask];
    forall i | 0 <= i < |log| ensures Effective(log, i) <==> Effective(longer, i) {
      assert forall j | 0 <= j <= i :: longer[j] == log[j];
    }
    forall m ensures Known(longer, m) <==> Known(log, m) || (m == mask && Effective(longer, |log|)) {
      if Known(log, m) {
        var i :| Effective(log, i) && log[i] == m;
        assert Effective(longer, i) && longer[i] == m;
      }
      if m == mask && Effective(longer, |log|) {
        assert longer[|log|] == m;
      }
    }
  }

  /** A URL was masked before exactly when some registration of it counts. */
  lemma MaskedBefore(log: seq<Mask>, expanded: string)
    ensures (exists j | 0 <= j < |log| :: log[j].expanded == expanded && log[j].masked != expanded) <==>
            (exists m :: Known(log, m) && m.expanded == expanded)
  {
    if exists j | 0 <= j < |log| :: log[j].expanded == expanded && log[j].masked != expanded {
      var j :| 0 <= j < |log| && log[j].expanded == expanded && log[j].masked != expanded;
      var i := FirstFor(log, expanded, j);
      assert Known(log, log[i]);
    }
  }

  lemma {:induction false} FirstFor(log: seq<Mask>, expanded: string, j: nat) returns (i: nat)
    requires j < |log| && log[j].expanded == expanded && log[j].masked != expanded
    ensures Effective(log, i) && log[i].expanded == expanded
  {
    if Effective(log, j) {
      i := j;
    } else {
      var k :| 0 <= k < j && log[k].expanded == expanded && log[k].masked != expanded;
      i := FirstFor(log, expanded, k);
    }
  }
}
