/**
 Fetching one tile: cache, then up to three requests (fetch_wms_image in services/renderer/compositor.py). The cache key
 is a digest of the URL and is taken to be injective, so the key stands for the URL.
 */
module TileFetch {
  import opened Basics
  import opened TileCache

  type Image = nat

  /** How one request ends. */
  datatype Reply = Broken | Http(status: int, markup: bool, body: Bytes)

  const ATTEMPTS: nat := 3

  /** The server says there is no data: no further attempt is made. */
  predicate Final(r: Reply) {
    r.Http? && r.status == 200 && r.markup
  }

  /** The body is taken for an image and cached. */
  predicate Usable(r: Reply) {
    r.Http? && r.status == 200 && !r.markup && |r.body| >= SMALLEST
  }

  /** The fate of each write to the cache, per attempt. */
  datatype CacheWrite = CacheWrite(redisWrites: bool, disk: DiskWrite)

  lemma ReplyKinds(r: Reply)
    ensures Final(r) <==> r.Http? && r.status == 200 && r.markup
    ensures Usable(r) <==> r.Http? && r.status == 200 && !r.markup && |r.body| >= 500
  {
  }

  /** The attempt after which the loop returns: a final reply, or one that decodes. */
  predicate Ends(r: Reply, decode: Bytes -> Option<Image>) {
    Final(r) || (Usable(r) && decode(r.body).Some?)
  }

  /** How many requests are sent. */
  function Attempts(replies: seq<Reply>, decode: Bytes -> Option<Image>): (n: nat)
    ensures n <= |replies|
  {
    if replies == [] then 0 else if Ends(replies[0], decode) then 1 else 1 + Attempts(replies[1..], decode)
  }

  /** Every usable body that arrives is stored, whether it decodes or not. */
  function StoresOf(url: Key, replies: seq<Reply>, writes: seq<CacheWrite>): seq<Op>
    requires |replies| == |writes|
  {
    if replies == [] then []
    else
      var n := |replies| - 1;
      StoresOf(url, replies[..n], writes[..n]) +
      if Usable(replies[n]) then [Set(url, replies[n].body, writes[n].redisWrites, writes[n].disk)] else []
  }

  lemma StoresSnoc(t: Tiers, url: Key, replies: seq<Reply>, writes: seq<CacheWrite>, k: nat)
    requires |replies| == |writes| && k < |replies|
    ensures var before := After(t, StoresOf(url, replies[..k], writes[..k]));
            After(t, StoresOf(url, replies[..k + 1], writes[..k + 1])) ==
            if Usable(replies[k]) then Step(before, Set(url, replies[k].body, writes[k].redisWrites, writes[k].disk))
            else before
  {
    var some, those, earlier := replies[..k + 1], writes[..k + 1], StoresOf(url, replies[..k], writes[..k]);
    assert some[..k] == replies[..k] && those[..k] == writes[..k] && some[k] == replies[k] && those[k] == writes[k];
    if Usable(replies[k]) {
      var op := Set(url, replies[k].body, writes[k].redisWrites, writes[k].disk);
      assert StoresOf(url, some, those) == earlier + [op];
      AfterSnoc(t, earlier, op);
    } else {
      assert StoresOf(url, some, those) == earlier + [];
      assert earlier + [] == earlier;
    }
  }

  class Fetcher {
    const cache: TieredCache

    constructor (cache: TieredCache)
      ensures this.cache == cache
    {
      this.cache := cache;
    }

    /**
     The image is the cached one, or that of the first decodable reply before a final one. Whatever is returned was
     decoded from bytes that belong to this URL, and the cache stays as faithful as it was.
     */
    method Fetch(url: Key, get: Op, replies: seq<Reply>, writes: seq<CacheWrite>, decode: Bytes -> Option<Image>,
                 ghost truth: Truth)
        returns (image: Option<Image>)
      requires get.Get? && get.key == url && |replies| == |writes| == ATTEMPTS
      requires Faithful(cache.View(), truth)
      requires forall i :: 0 <= i < ATTEMPTS && Usable(replies[i]) ==>
                 && (url, replies[i].body) in truth
                 && !Harmful(Set(url, replies[i].body, writes[i].redisWrites, writes[i].disk), truth)
      modifies cache
      ensures Faithful(cache.View(), truth)
      ensures image.Some? ==> exists b :: (url, b) in truth && decode(b) == image
      ensures var cached := Answer(old(cache.View()), get);
              image == if cached.Some? && |cached.value| > SMALLEST && decode(cached.value).Some?
                       then decode(cached.value)
                       else FirstImage(replies, decode)
      ensures var cached, n := Answer(old(cache.View()), get), Attempts(replies, decode);
              n <= 3 &&
              cache.View() == if cached.Some? && |cached.value| > SMALLEST && decode(cached.value).Some?
                              then Step(old(cache.View()), get)
                              else After(Step(old(cache.View()), get), StoresOf(url, replies[..n], writes[..n]))
    {
      ghost var before := cache.View();
      StepFaithful(before, get, truth);
      var cached := cache.Get(url, get.redisReads, get.diskReads, get.redisWrites);
      if cached.Some? && |cached.value| > SMALLEST {
        image := decode(cached.value);
        if image.Some? {
          return;
        }
      }
      image := Request(url, replies, writes, decode, truth);
    }

    /** Up to three requests; whatever usable arrives is stored. */
    method Request(url: Key, replies: seq<Reply>, writes: seq<CacheWrite>, decode: Bytes -> Option<Image>,
                   ghost truth: Truth)
        returns (image: Option<Image>)
      requires |replies| == |writes| == ATTEMPTS && Faithful(cache.View(), truth)
      requires forall i :: 0 <= i < ATTEMPTS && Usable(replies[i]) ==>
                 && (url, replies[i].body) in truth
                 && !Harmful(Set(url, replies[i].body, writes[i].redisWrites, writes[i].disk), truth)
      modifies cache
      ensures Faithful(cache.View(), truth)
      ensures image.Some? ==> exists b :: (url, b) in truth && decode(b) == image
      ensures image == FirstImage(replies, decode)
      ensures var n := Attempts(replies, decode);
              cache.View() == After(old(cache.View()), StoresOf(url, replies[..n], writes[..n]))
    {
      image := None;
      ghost var start := cache.View();
      for attempt := 0 to ATTEMPTS
        invariant Faithful(cache.View(), truth)
        invariant cache.View() == After(start, StoresOf(url, replies[..attempt], writes[..attempt]))
        invariant Attempts(replies, decode) == attempt + Attempts(replies[attempt..], decode)
        invariant FirstImage(replies, decode) == FirstImage(replies[attempt..], decode)
      {
        var r := replies[attempt];
        assert replies[attempt..][0] == r && replies[attempt..][1..] == replies[attempt + 1..];
        StoresSnoc(start, url, replies, writes, attempt);
        if r.Http? && r.status == 200 {
          if r.markup {
            return None;
          }
          if |r.body| >= SMALLEST {
            ghost var op := Set(url, r.body, writes[attempt].redisWrites, writes[attempt].disk);
            StepFaithful(cache.View(), op, truth);
            cache.Set(url, r.body, writes[attempt].redisWrites, writes[attempt].disk);
            image := decode(r.body);
            if image.Some? {
              return;
            }
          }
        }
      }
      image := None;
    }
  }

  /** What the network alone would give. */
  function FirstImage(replies: seq<Reply>, decode: Bytes -> Option<Image>): Option<Image> {
    if replies == [] || Final(replies[0]) then None
    else if Usable(replies[0]) && decode(replies[0].body).Some? then decode(replies[0].body)
    else FirstImage(replies[1..], decode)
  }

  /** The first image, said directly: some reply decodes, none before it decodes, and none before it is final. */
  lemma {:induction false} FirstImageExactly(replies: seq<Reply>, decode: Bytes -> Option<Image>, image: Image)
    ensures FirstImage(replies, decode) == Some(image) <==>
            exists i :: 0 <= i < |replies| && Usable(replies[i]) && decode(replies[i].body) == Some(image) &&
                        forall j :: 0 <= j < i ==>
                          !Final(replies[j]) && !(Usable(replies[j]) && decode(replies[j].body).Some?)
  {
    if replies != [] {
      var rest := replies[1..];
      FirstImageExactly(rest, decode, image);
      if FirstImage(replies, decode) == Some(image) && !(Usable(replies[0]) && decode(replies[0].body).Some?) {
        var i :| 0 <= i < |rest| && Usable(rest[i]) && decode(rest[i].body) == Some(image) &&
                 forall j :: 0 <= j < i ==> !Final(rest[j]) && !(Usable(rest[j]) && decode(rest[j].body).Some?);
        assert replies[i + 1] == rest[i];
        forall j | 0 <= j < i + 1
          ensures !Final(replies[j]) && !(Usable(replies[j]) && decode(replies[j].body).Some?)
        {
          if j > 0 { assert replies[j] == rest[j - 1]; }
        }
      }
      if i :| 0 < i < |replies| && Usable(replies[i]) && decode(replies[i].body) == Some(image) &&
              forall j :: 0 <= j < i ==> !Final(replies[j]) && !(Usable(replies[j]) && decode(replies[j].body).Some?) {
        assert rest[i - 1] == replies[i];
        assert forall j :: 0 <= j < i - 1 ==> rest[j] == replies[j + 1];
      }
    }
  }

  /** The first reply that decodes, and what it leaves in the cache. */
  lemma {:induction false} FetchedIsCached(t: Tiers, url: Key, replies: seq<Reply>, writes: seq<CacheWrite>,
                                           decode: Bytes -> Option<Image>, i: nat)
    requires |replies| == |writes| && i < |replies|
    requires Usable(replies[i]) && decode(replies[i].body).Some? && forall j :: 0 <= j < i ==> !Ends(replies[j], decode)
    ensures Attempts(replies, decode) == i + 1
    ensures var t' := After(t, StoresOf(url, replies[..i + 1], writes[..i + 1]));
            && (writes[i].disk == Written ==> url in t'.disk && t'.disk[url] == replies[i].body)
            && (t.connected && writes[i].redisWrites ==> url in t'.redis && t'.redis[url] == replies[i].body)
  {
    AttemptsAre(replies, decode, i);
    StoresSnoc(t, url, replies, writes, i);
    StaysConnected(t, StoresOf(url, replies[..i], writes[..i]));
  }

  lemma {:induction false} AttemptsAre(replies: seq<Reply>, decode: Bytes -> Option<Image>, i: nat)
    requires i < |replies| && Ends(replies[i], decode) && forall j :: 0 <= j < i ==> !Ends(replies[j], decode)
    ensures Attempts(replies, decode) == i + 1
    decreases i
  {
    if i > 0 {
      assert !Ends(replies[0], decode);
      AttemptsAre(replies[1..], decode, i - 1);
    }
  }

  lemma {:induction false} StaysConnected(t: Tiers, trace: seq<Op>)
    ensures After(t, trace).connected == t.connected
    decreases |trace|
  {
    if trace != [] {
      StaysConnected(Step(t, trace[0]), trace[1..]);
    }
  }
}
