/**
 The object keys of an S3 job, resolved once by the API when it enqueues and again by the worker.
 */
module S3Keys {
  import opened Text
  import opened SortedStrings

  // ---------------------------------------------------------------- resolution

  datatype KeyError = InvalidURI(uri: string) | MixedBuckets | NoBucket | NoKeys

  datatype Parsed = Parsed(bucket: string, key: string) | NotS3

  /** `s3://bucket/key`, the scheme in any case; bucket and key must not be empty. */
  function ParseS3URI(uri: string): Parsed {
    var u := TrimSpace(uri);
    if |u| < 5 || (u[0] != 's' && u[0] != 'S') || u[1..5] != "3://" then NotS3
    else
      var rest := u[5..];
      var i := Index(rest, "/", 0);
      if i <= 0 || i >= |rest| - 1 then NotS3 else Parsed(rest[..i], rest[i + 1..])
  }

  /**
   Exactly what is an S3 URI: trimmed, the scheme in either case, then a bucket without a slash, a slash, and a key, which
   may hold slashes; neither is empty.
   */
  lemma WhatIsS3URI(uri: string, b: string, k: string)
    ensures ParseS3URI(uri) == Parsed(b, k) <==>
      && b != "" && k != "" && '/' !in b
      && (TrimSpace(uri) == "s3://" + b + "/" + k || TrimSpace(uri) == "S3://" + b + "/" + k)
  {
    if ParseS3URI(uri) == Parsed(b, k) {
      FormOfParsed(uri, b, k);
    }
    if b != "" && k != "" && '/' !in b && (TrimSpace(uri) == "s3://" + b + "/" + k || TrimSpace(uri) == "S3://" + b + "/" + k) {
      ParsedFromForm(uri, b, k);
    }
    hide TrimSpace, ParseS3URI;
  }

  lemma FormOfParsed(uri: string, b: string, k: string)
    requires ParseS3URI(uri) == Parsed(b, k)
    ensures b != "" && k != "" && '/' !in b
    ensures TrimSpace(uri) == "s3://" + b + "/" + k || TrimSpace(uri) == "S3://" + b + "/" + k
  {
    var u := TrimSpace(uri);
    hide TrimSpace;
    var rest := u[5..];
    var i := Index(rest, "/", 0);
    NoSlashBefore(rest, i);
    hide Index;
    assert rest == b + "/" + k;
    assert u == [u[0]] + u[1..5] + rest;
    assert [u[0]] + "3://" + rest == [u[0]] + "3://" + b + "/" + k;
    assert u[0] == 's' ==> u == "s3://" + b + "/" + k;
    assert u[0] == 'S' ==> u == "S3://" + b + "/" + k;
  }

  lemma BehindScheme(c: char, rest: string)
    ensures var u := [c] + "3://" + rest; |u| == 5 + |rest| && u[0] == c && u[1..5] == "3://" && u[5..] == rest
  {
  }

  lemma SchemeInFront(c: char, b: string, k: string)
    ensures [c] + "3://" + b + "/" + k == [c] + "3://" + (b + "/" + k)
    ensures "s3://" == ['s'] + "3://" && "S3://" == ['S'] + "3://"
  {
  }

  lemma AroundSlash(b: string, k: string)
    ensures var rest := b + "/" + k; rest[..|b|] == b && rest[|b| + 1..] == k && |rest| == |b| + 1 + |k|
  {
  }

  lemma ParsedFromForm(uri: string, b: string, k: string)
    requires b != "" && k != "" && '/' !in b
    requires TrimSpace(uri) == "s3://" + b + "/" + k || TrimSpace(uri) == "S3://" + b + "/" + k
    ensures ParseS3URI(uri) == Parsed(b, k)
  {
    hide TrimSpace, Index;
    SchemeInFront('s', b, k);
    SchemeInFront('S', b, k);
    BehindScheme('s', b + "/" + k);
    BehindScheme('S', b + "/" + k);
    FirstSlash(b, k);
    AroundSlash(b, k);
  }

  lemma NoSlashBefore(t: string, i: nat)
    requires Index(t, "/", 0) == i
    ensures i < |t| && '/' !in t[..i] && t == t[..i] + "/" + t[i + 1..]
  {
    assert OccursAt(t, "/", i);
    assert t[i..i + 1][0] == t[i];
    hide Index, OccursAt;
    forall k | 0 <= k < i ensures t[k] != '/' {
      assert !OccursAt(t, "/", k);
      NoSlashAt(t, k);
    }
    AroundAt(t, i);
  }

  lemma AroundAt(t: string, i: nat)
    requires i < |t| && t[i] == '/'
    ensures t == t[..i] + "/" + t[i + 1..]
  {
    assert "/" == [t[i]];
  }

  lemma NoSlashAt(t: string, k: nat)
    requires k < |t| && !OccursAt(t, "/", k)
    ensures t[k] != '/'
  {
    assert t[k..k + 1] == [t[k]];
  }

  lemma FirstSlash(b: string, k: string)
    requires '/' !in b
    ensures Index(b + "/" + k, "/", 0) == |b|
  {
    var t := b + "/" + k;
    assert t[|b|..|b| + 1] == "/";
    assert OccursAt(t, "/", |b|);
    forall j | 0 <= j < |b| ensures !OccursAt(t, "/", j) {
      assert t[j] == b[j];
      assert t[j..j + 1][0] == b[j];
    }
  }

  /** `k` is one of the names, trimmed, and not blank. */
  ghost predicate Named(names: seq<string>, k: string) {
    k != "" && exists i :: 0 <= i < |names| && TrimSpace(names[i]) == k
  }

  /** `keys` lists the non-blank trimmed names, sorted, each once. */
  ghost predicate KeyList(names: seq<string>, keys: seq<string>) {
    StrictlySorted(keys) && forall k :: k in keys <==> Named(names, k)
  }

  ghost predicate AllParse(uris: seq<string>) {
    forall i :: 0 <= i < |uris| ==> ParseS3URI(uris[i]).Parsed?
  }

  /** All URIs name the same bucket. */
  ghost predicate OneBucket(uris: seq<string>, b: string) {
    AllParse(uris) && forall i :: 0 <= i < |uris| ==> ParseS3URI(uris[i]).bucket == b
  }

  function KeyOf(uri: string): string {
    match ParseS3URI(uri)
    case Parsed(_, k) => k
    case NotS3 => ""
  }

  function KeysOf(uris: seq<string>): (r: seq<string>)
    ensures |r| == |uris|
    ensures forall i :: 0 <= i < |uris| ==> r[i] == KeyOf(uris[i])
  {
    hide ParseS3URI, KeyOf;
    if uris == [] then [] else KeysOf(uris[..|uris| - 1]) + [KeyOf(uris[|uris| - 1])]
  }

  /** `outKeys` holds the non-blank trimmed names seen so far, each once. */
  ghost predicate Collected(names: seq<string>, seen: set<string>, outKeys: seq<string>) {
    && NoRepeats(outKeys)
    && (forall k :: k in outKeys <==> k in seen)
    && forall k :: k in seen <==> Named(names, k)
  }

  lemma NamedStep(names: seq<string>, name: string, k: string)
    ensures Named(names + [name], k) <==> Named(names, k) || (k != "" && TrimSpace(name) == k)
  {
    hide TrimSpace;
    var more := names + [name];
    if Named(names, k) {
      var i :| 0 <= i < |names| && TrimSpace(names[i]) == k;
      assert more[i] == names[i];
    }
    if k != "" && TrimSpace(name) == k {
      assert more[|names|] == name;
    }
  }

  method Collect(names: seq<string>, name: string, seen: set<string>, outKeys: seq<string>)
    returns (seen': set<string>, outKeys': seq<string>)
    requires Collected(names, seen, outKeys)
    ensures Collected(names + [name], seen', outKeys')
  {
    hide TrimSpace, Named;
    forall k ensures Named(names + [name], k) <==> Named(names, k) || (k != "" && TrimSpace(name) == k) {
      NamedStep(names, name, k);
    }
    seen', outKeys' := seen, outKeys;
    var k := TrimSpace(name);
    if k != "" && k !in seen {
      seen', outKeys' := seen + {k}, outKeys + [k];
    }
  }

  /** Goes on collecting, from the names behind those collected. */
  method CollectAll(before: seq<string>, names: seq<string>, seen0: set<string>, outKeys0: seq<string>)
    returns (seen: set<string>, outKeys: seq<string>)
    requires Collected(before, seen0, outKeys0)
    ensures Collected(before + names, seen, outKeys)
  {
    hide Collected;
    seen, outKeys := seen0, outKeys0;
    assert before + names[..0] == before;
    for i := 0 to |names|
      invariant Collected(before + names[..i], seen, outKeys)
    {
      assert before + names[..i + 1] == (before + names[..i]) + [names[i]];
      seen, outKeys := Collect(before + names[..i], names[i], seen, outKeys);
    }
    assert names[..|names|] == names;
  }

  /** The API's resolution: buckets must agree among the URIs; the form's bucket is used only without URIs. */
  method ResolveS3EnqueueKeys(bucket: string, s3URIs: seq<string>, keys: seq<string>)
    returns (r: Result<(string, seq<string>), KeyError>)
    ensures r.Err? && r.error.InvalidURI? ==> !AllParse(s3URIs)
    ensures r == Err(MixedBuckets) ==> forall b :: !OneBucket(s3URIs, b)
    ensures r == Err(NoBucket) <==> TrimSpace(bucket) == "" && s3URIs == [] && exists k :: Named(keys, k)
    ensures r != Err(NoKeys)
    ensures r.Ok? ==>
      && KeyList(KeysOf(s3URIs) + keys, r.value.1)
      && (if s3URIs == [] then r.value.0 == TrimSpace(bucket) else OneBucket(s3URIs, r.value.0))
      && (r.value.0 == "" ==> r.value.1 == [])
  {
    hide TrimSpace, ParseS3URI, Named, Collected, OneBucket, AllParse;
    var given := TrimSpace(bucket);
    var b := "";
    var seen: set<string>, outKeys: seq<string> := {}, [];
    NothingCollected();
    AnyBucket("");
    for i := 0 to |s3URIs|
      invariant if i == 0 then b == "" else b != ""
      invariant OneBucket(s3URIs[..i], b)
      invariant Collected(KeysOf(s3URIs)[..i], seen, outKeys)
    {
      match ParseS3URI(s3URIs[i]) {
        case NotS3 =>
          NotAllParse(s3URIs, i);
          return Err(InvalidURI(s3URIs[i]));
        case Parsed(buck, k) =>
          ParsedBucketNonEmpty(s3URIs[i]);
          if b == "" {
            AnyBucket(buck);
            b := buck;
          } else if b != buck {
            TwoBuckets(s3URIs, i, b);
            return Err(MixedBuckets);
          }
          OneBucketStep(s3URIs, i, b);
          PrefixStep(KeysOf(s3URIs), i);
          seen, outKeys := Collect(KeysOf(s3URIs)[..i], k, seen, outKeys);
      }
    }
    assert s3URIs[..|s3URIs|] == s3URIs && KeysOf(s3URIs)[..|s3URIs|] == KeysOf(s3URIs);
    seen, outKeys := CollectAll(KeysOf(s3URIs), keys, seen, outKeys);
    CollectedNames(KeysOf(s3URIs) + keys, seen, outKeys);
    assert s3URIs == [] ==> KeysOf(s3URIs) + keys == keys;
    var outBucket := if b != "" then b else given;
    if outBucket == "" && |outKeys| > 0 {
      assert Named(keys, outKeys[0]);
      return Err(NoBucket);
    }
    r := Ok((outBucket, Sort(outKeys)));
  }

  lemma NothingCollected()
    ensures Collected([], {}, [])
  {
  }

  /** What was collected: some name is not blank if and only if there is a key, and sorted the keys are the key list. */
  lemma CollectedNames(names: seq<string>, seen: set<string>, outKeys: seq<string>)
    requires Collected(names, seen, outKeys)
    ensures KeyList(names, Sort(outKeys)) && (Sort(outKeys) == [] <==> outKeys == [])
    ensures forall k :: k in outKeys <==> Named(names, k)
  {
    hide Named;
    SortSorts(outKeys);
    assert outKeys != [] ==> outKeys[0] in Sort(outKeys);
    assert Sort(outKeys) != [] ==> Sort(outKeys)[0] in outKeys;
  }

  lemma ParsedBucketNonEmpty(uri: string)
    ensures match ParseS3URI(uri) case Parsed(b, k) => b != "" && k != "" case NotS3 => true
  {
  }

  lemma AnyBucket(b: string)
    ensures OneBucket([], b)
  {
  }

  lemma OneBucketStep(uris: seq<string>, i: nat, b: string)
    requires i < |uris| && OneBucket(uris[..i], b) && ParseS3URI(uris[i]).Parsed? && ParseS3URI(uris[i]).bucket == b
    ensures OneBucket(uris[..i + 1], b)
  {
    hide ParseS3URI;
    PrefixStep(uris, i);
  }

  lemma NotAllParse(uris: seq<string>, i: nat)
    requires i < |uris| && ParseS3URI(uris[i]).NotS3?
    ensures !AllParse(uris)
  {
    hide ParseS3URI;
  }

  /** A bucket that differs from those before it: only the first URI may still decide. */
  lemma TwoBuckets(uris: seq<string>, i: nat, b: string)
    requires i < |uris| && OneBucket(uris[..i], b) && ParseS3URI(uris[i]).Parsed? && ParseS3URI(uris[i]).bucket != b
    ensures forall c :: OneBucket(uris, c) ==> i == 0 && c != b
  {
    hide ParseS3URI;
    assert i > 0 ==> uris[..i][0] == uris[0];
    assert i > 0 ==> ParseS3URI(uris[0]).bucket == b;
  }

  /** The worker's resolution: the form's bucket counts as well, listed keys are appended, and no key is an error. */
  method ResolveWorkerKeys(jobBucket: string, s3URIs: seq<string>, jobKeys: seq<string>, listed: seq<string>)
    returns (r: Result<(string, seq<string>), KeyError>)
    ensures r.Ok? ==>
      && KeyList(KeysOf(s3URIs) + jobKeys + listed, r.value.1)
      && r.value.0 != "" && r.value.1 != []
      && OneBucket(s3URIs, r.value.0) && (TrimSpace(jobBucket) != "" ==> r.value.0 == TrimSpace(jobBucket))
      && (s3URIs == [] ==> r.value.0 == TrimSpace(jobBucket))
    ensures r == Err(NoKeys) ==> forall k :: !Named(KeysOf(s3URIs) + jobKeys + listed, k)
    ensures r.Err? && r.error.InvalidURI? ==> !AllParse(s3URIs)
    ensures r == Err(NoBucket) ==> TrimSpace(jobBucket) == "" && s3URIs == []
    ensures r == Err(MixedBuckets) ==>
      forall b :: OneBucket(s3URIs, b) ==> TrimSpace(jobBucket) != "" && b != TrimSpace(jobBucket)
  {
    hide TrimSpace, ParseS3URI, Named, Collected, OneBucket, AllParse;
    var bucket := TrimSpace(jobBucket);
    var keys: seq<string> := [];
    AnyBucket(bucket);
    for i := 0 to |s3URIs|
      invariant i > 0 ==> bucket != ""
      invariant OneBucket(s3URIs[..i], bucket)
      invariant TrimSpace(jobBucket) != "" ==> bucket == TrimSpace(jobBucket)
      invariant i == 0 ==> bucket == TrimSpace(jobBucket)
      invariant keys == KeysOf(s3URIs)[..i]
    {
      match ParseS3URI(s3URIs[i]) {
        case NotS3 =>
          NotAllParse(s3URIs, i);
          return Err(InvalidURI(s3URIs[i]));
        case Parsed(buck, k) =>
          ParsedBucketNonEmpty(s3URIs[i]);
          if bucket == "" {
            AnyBucket(buck);
            bucket := buck;
          } else if bucket != buck {
            TwoBuckets(s3URIs, i, bucket);
            return Err(MixedBuckets);
          }
          OneBucketStep(s3URIs, i, bucket);
          PrefixStep(KeysOf(s3URIs), i);
          keys := keys + [k];
      }
    }
    assert s3URIs[..|s3URIs|] == s3URIs && KeysOf(s3URIs)[..|s3URIs|] == KeysOf(s3URIs);
    if bucket == "" {
      return Err(NoBucket);
    }
    // Job keys are trimmed and dropped when blank below, with all the others.
    keys := keys + jobKeys + listed;
    NothingCollected();
    var seen, uniq := CollectAll([], keys, {}, []);
    assert [] + keys == keys;
    CollectedNames(keys, seen, uniq);
    if |uniq| == 0 {
      return Err(NoKeys);
    }
    r := Ok((bucket, Sort(uniq)));
  }

  /** What both promise fixes the result: same bucket, same keys in the same order. */
  lemma ResolutionsAgree(bucket: string, uris: seq<string>, keys: seq<string>,
                         apiBucket: string, apiKeys: seq<string>, workerBucket: string, workerKeys: seq<string>)
    requires KeyList(KeysOf(uris) + keys, apiKeys)
    requires if uris == [] then apiBucket == TrimSpace(bucket) else OneBucket(uris, apiBucket)
    requires KeyList(KeysOf(uris) + keys + [], workerKeys)
    requires OneBucket(uris, workerBucket) && (uris == [] ==> workerBucket == TrimSpace(bucket))
    ensures apiBucket == workerBucket && apiKeys == workerKeys
  {
    hide TrimSpace, ParseS3URI, Named;
    var names := KeysOf(uris) + keys;
    assert names + [] == names;
    SortedIsUnique(apiKeys, workerKeys);
    if uris != [] {
      assert ParseS3URI(uris[0]).bucket == apiBucket;
    }
  }

  /**
   Without a prefix: whenever the worker resolves its keys, the API has resolved the same ones; and the worker
   does so exactly when the API found a bucket and a key and the form's bucket, if given, is that bucket.
   */
  method ResolveBoth(bucket: string, uris: seq<string>, keys: seq<string>)
    returns (api: Result<(string, seq<string>), KeyError>, worker: Result<(string, seq<string>), KeyError>)
    ensures worker.Ok? ==> api == worker
    ensures worker.Ok? <==>
      && api.Ok? && api.value.0 != "" && api.value.1 != []
      && (TrimSpace(bucket) == "" || TrimSpace(bucket) == api.value.0)
  {
    hide TrimSpace, ParseS3URI, Named;
    worker := ResolveWorkerKeys(bucket, uris, keys, []);
    api := ResolveS3EnqueueKeys(bucket, uris, keys);
    var names := KeysOf(uris) + keys;
    assert names + [] == names;
    assert uris == [] ==> OneBucket(uris, TrimSpace(bucket));
    if worker.Ok? {
      assert Named(names, worker.value.1[0]);
      ResolutionsAgree(bucket, uris, keys, api.value.0, api.value.1, worker.value.0, worker.value.1);
    } else if api.Ok? && api.value.1 != [] {
      assert Named(names, api.value.1[0]);
    }
  }

  /** A form whose bucket contradicts its URI: the API enqueues it, the worker refuses it. */
  method ContradictingForm() returns (api: Result<(string, seq<string>), KeyError>, worker: Result<(string, seq<string>), KeyError>)
    ensures api == Ok(("y", ["k"])) && worker == Err(MixedBuckets)
  {
    hide TrimSpace, ParseS3URI, KeysOf, KeyList, OneBucket, AllParse, Named;
    var uris := ["s3://y/k"];
    ExampleForm(uris);
    worker := ResolveWorkerKeys("x", uris, [], []);
    api := ResolveS3EnqueueKeys("x", uris, []);
    assert KeysOf(uris) + [] == KeysOf(uris) == KeysOf(uris) + [] + [];
    if api.Ok? {
      SameKeyList(["k"], api.value.1, ["k"]);
    }
  }

  lemma SameKeyList(names: seq<string>, a: seq<string>, b: seq<string>)
    requires KeyList(names, a) && KeyList(names, b)
    ensures a == b
  {
    hide Named;
    SortedIsUnique(a, b);
  }

  lemma ExampleForm(uris: seq<string>)
    requires uris == ["s3://y/k"]
    ensures AllParse(uris) && OneBucket(uris, "y") && forall b :: OneBucket(uris, b) ==> b == "y"
    ensures KeysOf(uris) == ["k"] && KeyList(["k"], ["k"]) && Named(["k"], "k")
    ensures TrimSpace("x") == "x"
  {
    hide *;
    ParseExample();
    ExampleTrims();
    OneURI("s3://y/k");
    OneKey("k");
  }

  lemma ExampleTrims()
    ensures TrimSpace("x") == "x" && TrimSpace("k") == "k"
  {
  }

  lemma OneURI(uri: string)
    requires ParseS3URI(uri).Parsed?
    ensures KeysOf([uri]) == [ParseS3URI(uri).key]
    ensures AllParse([uri]) && forall b :: OneBucket([uri], b) <==> b == ParseS3URI(uri).bucket
  {
    hide ParseS3URI;
    var uris := [uri];
    assert uris[0] == uri;
    assert KeysOf(uris)[0] == KeyOf(uris[0]);
  }

  lemma OneKey(key: string)
    requires TrimSpace(key) == key != ""
    ensures KeyList([key], [key]) && Named([key], key)
  {
    hide TrimSpace;
    assert TrimSpace([key][0]) == key;
  }

  lemma ParseExample()
    ensures ParseS3URI("s3://y/k") == Parsed("y", "k")
  {
    var u := "s3://y/k";
    assert TrimSpace(u) == u;
    hide TrimSpace;
    var rest := u[5..];
    assert rest == "y/k" && rest[0..1] == "y" && rest[1..2] == "/";
    assert Index(rest, "/", 0) == 1;
    assert rest[..1] == "y" && rest[2..] == "k";
  }
}
