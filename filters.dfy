/**
  The answer filters of the question module: the functions that turn the raw
  string typed at a prompt into the value stored in the answers object.
*/
module Filters {
  import opened JsBuiltins

  /** Filter of the `keywords` question: the answer split on commas. The pieces
      are NOT trimmed, so "a, b" gives "a" and " b". */
  function KeywordsFilter(answer: string): (keywords: seq<string>)
    ensures |keywords| == Count(answer, ',') + 1
    ensures forall i :: 0 <= i < |keywords| ==> ',' !in keywords[i]
    ensures Join(keywords, ',') == answer
  {
    JoinSplit(answer, ',');
    Split(answer, ',')
  }

  /** A keyword list without commas in its pieces is what the filter makes of
      its own join: the filter loses nothing. */
  lemma KeywordsFromJoin(keywords: seq<string>)
    requires |keywords| >= 1
    requires forall i :: 0 <= i < |keywords| ==> ',' !in keywords[i]
    ensures KeywordsFilter(Join(keywords, ',')) == keywords
  {
    SplitJoin(keywords, ',');
  }

  /** Comma-separated list with every entry trimmed: the filter of the `_apps`
      question, and the first step of the buckets filter. */
  function CommaList(answer: string): (items: seq<string>)
    ensures |items| == Count(answer, ',') + 1
    ensures forall i :: 0 <= i < |items| ==> items[i] == Trim(Split(answer, ',')[i])
    ensures forall i :: 0 <= i < |items| ==> ',' !in items[i] && IsTrimmed(items[i])
  {
    var pieces := Split(answer, ',');
    seq(|pieces|, i requires 0 <= i < |pieces| => Trim(pieces[i]))
  }

  /** The value the buckets filter stores per bucket: `{bucket: name}`. */
  datatype Bucket = Bucket(bucket: string)

  /** One entry per distinct name, each pointing at its own name. */
  function BucketMap(names: seq<string>): map<string, Bucket> {
    map k | k in names :: Bucket(k)
  }

  predicate Distinct(names: seq<string>) {
    forall i, j :: 0 <= i < j < |names| ==> names[i] != names[j]
  }

  /** The set of names occurring in a list. */
  function NameSet(names: seq<string>): set<string> {
    set k | k in names
  }

  lemma {:induction false} NameSetSize(names: seq<string>)
    ensures |NameSet(names)| <= |names|
    ensures |NameSet(names)| == |names| <==> Distinct(names)
    decreases |names|
  {
    if names != [] {
      var tail := names[1..];
      NameSetSize(tail);
      assert NameSet(names) == NameSet(tail) + {names[0]};
      if names[0] in tail {
        assert NameSet(names) == NameSet(tail);
        var j :| 0 <= j < |tail| && tail[j] == names[0];
        assert names[0] == names[j + 1];
      } else {
        assert names[0] !in NameSet(tail);
        if !Distinct(tail) {
          var i, j :| 0 <= i < j < |tail| && tail[i] == tail[j];
          assert names[i + 1] == names[j + 1];
        }
      }
    }
  }

  /** Repeated names collapse to one key: the map has at most as many entries as
      there are names, and exactly as many when the names are distinct. */
  lemma BucketMapSize(names: seq<string>)
    ensures |BucketMap(names)| <= |names|
    ensures |BucketMap(names)| == |names| <==> Distinct(names)
  {
    assert BucketMap(names).Keys == NameSet(names);
    NameSetSize(names);
  }

  lemma BucketMapAppend(names: seq<string>, name: string)
    ensures BucketMap(names + [name]) == BucketMap(names)[name := Bucket(name)]
  {
    assert forall k :: k in names + [name] <==> k in names || k == name;
  }

  /** Filter of the `storage.couchbase.buckets` question: split on commas, trim
      each name, and fold the names into an object keyed by name. */
  method BucketsFilter(answer: string) returns (buckets: map<string, Bucket>)
    ensures buckets == BucketMap(CommaList(answer))
    ensures forall k :: k in buckets <==> k in CommaList(answer)
    ensures forall k :: k in buckets ==> buckets[k] == Bucket(k) && IsTrimmed(k) && ',' !in k
    ensures |buckets| <= Count(answer, ',') + 1
  {
    var pieces := Split(answer, ',');
    ghost var names := CommaList(answer);
    buckets := map[];
    var i := 0;
    while i < |pieces|
      invariant 0 <= i <= |pieces|
      invariant buckets == BucketMap(names[..i])
    {
      var bucket := Trim(pieces[i]);
      BucketMapAppend(names[..i], bucket);
      assert names[..i + 1] == names[..i] + [bucket];
      buckets := buckets[bucket := Bucket(bucket)];
      i := i + 1;
    }
    assert names[..i] == names;
    BucketMapSize(names);
  }
}
