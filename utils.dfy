/** `compute_features` (utils.py): reduces the rows of one window, given by
    their `url` column, to a request rate and a distinct-URL count. */
module Utils {

  datatype WindowFeatures = WindowFeatures(requestRate: real, uniqueUrlsProxy: real)

  /** The distinct values of the `url` column (what `nunique` counts). */
  function DistinctUrls(urls: seq<string>): set<string> {
    set u | u in urls
  }

  /** `window_size` is only divided by when there are rows, so a zero window
      size is an error (`ZeroDivisionError`) only then. */
  function ComputeFeatures(urls: seq<string>, windowSize: int): (f: WindowFeatures)
    requires urls == [] || windowSize != 0
    ensures urls == [] ==> f == WindowFeatures(0.0, 0.0)
    ensures urls != [] ==> f.requestRate * windowSize as real == |urls| as real
    ensures urls != [] ==> f.uniqueUrlsProxy == |DistinctUrls(urls)| as real
  {
    if urls == [] then WindowFeatures(0.0, 0.0)
    else WindowFeatures(|urls| as real / windowSize as real, |DistinctUrls(urls)| as real)
  }

  lemma {:induction false} DistinctUrlsBound(urls: seq<string>)
    ensures |DistinctUrls(urls)| <= |urls|
    ensures urls != [] ==> 1 <= |DistinctUrls(urls)|
  {
    if urls != [] {
      assert urls[0] in DistinctUrls(urls);
      DistinctUrlsBound(urls[1..]);
      assert DistinctUrls(urls) == DistinctUrls(urls[1..]) + {urls[0]} by {
        assert urls == [urls[0]] + urls[1..];
      }
    }
  }

  /** For a non-empty window of positive length: a positive rate and
      `1 <= unique_urls_proxy <= count`. */
  lemma FeatureBounds(urls: seq<string>, windowSize: int)
    requires urls != [] && windowSize > 0
    ensures ComputeFeatures(urls, windowSize).requestRate > 0.0
    ensures 1.0 <= ComputeFeatures(urls, windowSize).uniqueUrlsProxy <= |urls| as real
  {
    DistinctUrlsBound(urls);
  }

  /** The features depend only on the multiset of rows, not on their order. */
  lemma FeaturesIgnoreOrder(a: seq<string>, b: seq<string>, windowSize: int)
    requires multiset(a) == multiset(b)
    requires a == [] || windowSize != 0
    ensures ComputeFeatures(a, windowSize) == ComputeFeatures(b, windowSize)
  {
    assert |a| == |multiset(a)| == |multiset(b)| == |b|;
    assert DistinctUrls(a) == DistinctUrls(b) by {
      forall u ensures u in a <==> u in b {
        assert u in a <==> u in multiset(a);
        assert u in b <==> u in multiset(b);
      }
    }
  }
}
