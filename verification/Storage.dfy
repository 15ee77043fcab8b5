/**
 Where tenants' objects live, in a bucket each or under a prefix each, and the paged listing and purge
 that rely on it.
 */
module Storage {
  import opened Wrappers

  datatype Mode = BucketPerTenant | PrefixPerTenant

  datatype Location = Location(bucket: string, key: string)

  // ---------- Names ----------

  function Lower(c: char): char {
    if 'A' <= c <= 'Z' then (c as int - 'A' as int + 'a' as int) as char else c
  }

  /** The id in lower case, without hyphens. */
  function TenantShortId(id: string): string {
    if |id| == 0 then ""
    else (if id[0] == '-' then "" else [Lower(id[0])]) + TenantShortId(id[1..])
  }

  predicate SameIgnoringCase(a: string, b: string) {
    |a| == |b| && forall i :: 0 <= i < |a| ==> Lower(a[i]) == Lower(b[i])
  }

  predicate IsHexDigit(c: char) {
    '0' <= c <= '9' || 'a' <= c <= 'f' || 'A' <= c <= 'F'
  }

  /** Thirty-six characters: hyphens where a UUID has them, and hexadecimal digits of either case elsewhere. */
  predicate UuidShaped(id: string) {
    |id| == 36 && forall i :: 0 <= i < 36 ==> if i in {8, 13, 18, 23} then id[i] == '-' else IsHexDigit(id[i])
  }

  predicate HyphensAlike(a: string, b: string) {
    |a| == |b| && forall i :: 0 <= i < |a| ==> (a[i] == '-' <==> b[i] == '-')
  }

  lemma {:induction false} ShortIdsTellApart(a: string, b: string)
    requires HyphensAlike(a, b)
    ensures |TenantShortId(a)| == |TenantShortId(b)|
    ensures TenantShortId(a) == TenantShortId(b) <==> SameIgnoringCase(a, b)
  {
    if |a| > 0 {
      ShortIdsTellApart(a[1..], b[1..]);
      assert SameIgnoringCase(a, b) <==> Lower(a[0]) == Lower(b[0]) && SameIgnoringCase(a[1..], b[1..]) by {
        assert a == [a[0]] + a[1..] && b == [b[0]] + b[1..];
        assert forall i :: 0 < i < |a| ==> a[1..][i - 1] == a[i] && b[1..][i - 1] == b[i];
      }
      if a[0] == '-' {
        assert TenantShortId(a) == TenantShortId(a[1..]) && TenantShortId(b) == TenantShortId(b[1..]);
      } else {
        assert TenantShortId(a)[1..] == TenantShortId(a[1..]) && TenantShortId(b)[1..] == TenantShortId(b[1..]);
        assert TenantShortId(a)[0] == Lower(a[0]) && TenantShortId(b)[0] == Lower(b[0]);
      }
    }
  }

  function TenantBucketName(prefix: string, id: string): string {
    prefix + "-t-" + TenantShortId(id)
  }

  function SharedBucketName(prefix: string): string {
    prefix + "-shared"
  }

  function PlatformBucketName(prefix: string): string {
    prefix + "-platform"
  }

  function LocateTenant(mode: Mode, prefix: string, id: string, key: string): Location {
    match mode
    case BucketPerTenant => Location(TenantBucketName(prefix, id), key)
    case PrefixPerTenant => Location(SharedBucketName(prefix), "t-" + TenantShortId(id) + "/" + key)
  }

  function LocatePlatform(prefix: string, key: string): Location {
    Location(PlatformBucketName(prefix), key)
  }

  /** What a listing or a purge under `at` covers. */
  predicate Under(at: Location, o: Location) {
    o.bucket == at.bucket && at.key <= o.key
  }

  lemma {:induction false} BucketsDiffer(prefix: string, id: string)
    ensures TenantBucketName(prefix, id) != SharedBucketName(prefix)
    ensures TenantBucketName(prefix, id) != PlatformBucketName(prefix)
    ensures SharedBucketName(prefix) != PlatformBucketName(prefix)
  {
    var at := |prefix| + 1;
    assert TenantBucketName(prefix, id)[at] == 't';
    assert SharedBucketName(prefix)[at] == 's';
    assert PlatformBucketName(prefix)[at] == 'p';
  }

  /** A tenant's own purge prefix covers exactly the locations of that tenant's keys. */
  lemma {:induction false} PurgePrefixCoversOwn(mode: Mode, prefix: string, id: string, o: Location)
    ensures Under(LocateTenant(mode, prefix, id, ""), o) <==> exists key :: o == LocateTenant(mode, prefix, id, key)
  {
    var at := LocateTenant(mode, prefix, id, "");
    if Under(at, o) {
      assert o.key == at.key + o.key[|at.key|..];
      assert o == LocateTenant(mode, prefix, id, o.key[|at.key|..]);
    }
    if key :| o == LocateTenant(mode, prefix, id, key) {
      assert o.key == at.key + key;
    }
  }

  /** No two tenants share a location or a purge prefix, exactly when their ids differ in more than case. */
  lemma {:induction false} TenantsAreApart(mode: Mode, prefix: string, a: string, b: string)
    requires UuidShaped(a) && UuidShaped(b)
    ensures !SameIgnoringCase(a, b) <==> forall key :: !Under(LocateTenant(mode, prefix, a, ""), LocateTenant(mode, prefix, b, key))
    ensures !SameIgnoringCase(a, b) ==> forall j, k :: LocateTenant(mode, prefix, a, j) != LocateTenant(mode, prefix, b, k)
  {
    ShortIdsTellApart(a, b);
    var sa, sb := TenantShortId(a), TenantShortId(b);
    forall key
      ensures Under(LocateTenant(mode, prefix, a, ""), LocateTenant(mode, prefix, b, key)) <==> sa == sb
    {
      UnderMeansSameId(mode, prefix, a, b, key);
    }
    if SameIgnoringCase(a, b) {
      assert Under(LocateTenant(mode, prefix, a, ""), LocateTenant(mode, prefix, b, ""));
    }
    forall j, k | LocateTenant(mode, prefix, a, j) == LocateTenant(mode, prefix, b, k)
      ensures sa == sb
    {
      PurgePrefixCoversOwn(mode, prefix, a, LocateTenant(mode, prefix, a, j));
    }
  }

  lemma {:induction false} PrefixSlice(x: string, y: string, lo: nat, hi: nat)
    requires x <= y && lo <= hi <= |x|
    ensures x[lo..hi] == y[lo..hi]
  {
  }

  lemma {:induction false} UnderMeansSameId(mode: Mode, prefix: string, a: string, b: string, key: string)
    requires |TenantShortId(a)| == |TenantShortId(b)|
    ensures Under(LocateTenant(mode, prefix, a, ""), LocateTenant(mode, prefix, b, key)) <==> TenantShortId(a) == TenantShortId(b)
  {
    var sa, sb := TenantShortId(a), TenantShortId(b);
    if mode == BucketPerTenant {
      var n := |prefix + "-t-"|;
      assert TenantBucketName(prefix, a)[n..] == sa && TenantBucketName(prefix, b)[n..] == sb;
    } else {
      var x, y := "t-" + sa + "/" + "", "t-" + sb + "/" + key;
      var n := 2 + |sa|;
      assert x[2..n] == sa && y[2..n] == sb;
      if x <= y {
        PrefixSlice(x, y, 2, n);
      }
      if sa == sb {
        assert y == x + key;
      }
    }
  }

  /** Nothing of the platform's is under a tenant's prefix. */
  lemma {:induction false} PlatformIsApart(mode: Mode, prefix: string, id: string, key: string)
    ensures !Under(LocateTenant(mode, prefix, id, ""), LocatePlatform(prefix, key))
  {
    BucketsDiffer(prefix, id);
  }

  // ---------- Listing and purging ----------

  const PAGE_SIZE := 1000

  predicate IsListed(pages: seq<seq<string>>, name: string) {
    exists p, i :: 0 <= p < |pages| && 0 <= i < |pages[p]| && pages[p][i] == name
  }

  /** No key is listed twice. */
  ghost predicate EachOnce(pages: seq<seq<string>>) {
    forall p, i, q, j :: 0 <= p < |pages| && 0 <= i < |pages[p]| && 0 <= q < |pages| && 0 <= j < |pages[q]| ==>
      pages[p][i] == pages[q][j] ==> p == q && i == j
  }

  /** The pages of a listing hold exactly the keys that are there. */
  ghost predicate PagesList(pages: seq<seq<string>>, bucket: string, covered: set<Location>) {
    forall name: string :: IsListed(pages, name) <==> Location(bucket, name) in covered
  }

  function CoveredOf(objects: set<Location>, at: Location): set<Location> {
    set o | o in objects && Under(at, o)
  }

  lemma {:induction false} CoveredWithout(objects: set<Location>, gone: set<Location>, at: Location)
    ensures CoveredOf(objects - gone, at) == CoveredOf(objects, at) - gone
  {
  }

  /** What becomes of one request: it is answered, or fails before or after it took effect. */
  datatype Luck = Answered | NotDone | ReplyLost

  datatype Problem = Refused | RequestFailed

  /** The requests of a purge, in the order it makes them. */
  ghost predicate AllAnswered(lucks: nat -> Luck) {
    forall k: nat :: lucks(k).Answered?
  }

  /**
   What a purge does: when it answers, everything under the prefix is gone and the answer is how much
   that was. It fails only over an object the provider refuses or a request that fails, and never
   deletes anything else.
   */
  ghost predicate Purged(was: set<Location>, refused: set<Location>, at: Location, lucks: nat -> Luck,
                         now: set<Location>, r: Result<nat, Problem>) {
    && (r.Ok? ==> CoveredOf(was, at) * refused == {} && now == was - CoveredOf(was, at) && r.value == |CoveredOf(was, at)|)
    && (r == Err(Refused) ==> CoveredOf(was, at) * refused != {})
    && (r == Err(RequestFailed) ==> !AllAnswered(lucks))
    && now <= was && was - now <= CoveredOf(was, at) - refused
  }

  /** A purge that failed can be repeated: together the two leave what one would have. */
  lemma {:induction false} PurgeCanBeRepeated(was: set<Location>, refused: set<Location>, at: Location, between: set<Location>,
                                              now: set<Location>, first: Result<nat, Problem>, second: Result<nat, Problem>,
                                              lucks: nat -> Luck, later: nat -> Luck)
    requires Purged(was, refused, at, lucks, between, first) && Purged(between, refused, at, later, now, second) && second.Ok?
    ensures now == was - CoveredOf(was, at) && CoveredOf(was, at) * refused == {}
    ensures |was - between| + second.value == |CoveredOf(was, at)|
  {
    var gone := was - between;
    CoveredWithout(was, gone, at);
    assert was - gone == between;
    SplitInTwo(CoveredOf(was, at), gone, refused);
    assert now == between - (CoveredOf(was, at) - gone);
  }

  lemma {:induction false} SplitInTwo(covered: set<Location>, gone: set<Location>, refused: set<Location>)
    requires gone <= covered - refused && (covered - gone) * refused == {}
    ensures covered * refused == {} && |gone| + |covered - gone| == |covered|
  {
    assert covered == gone + (covered - gone);
    forall o | o in covered
      ensures o !in refused
    {
      assert o !in gone ==> o !in (covered - gone) * refused;
    }
  }

  lemma {:induction false} AllIsGone(was: set<Location>, gone: set<Location>, refused: set<Location>, at: Location, lucks: nat -> Luck)
    requires gone <= CoveredOf(was, at) - refused && CoveredOf(was - gone, at) == {}
    ensures Purged(was, refused, at, lucks, was - gone, Ok(|gone|))
  {
    CoveredWithout(was, gone, at);
    var covered := CoveredOf(was, at);
    forall o | o in covered
      ensures o in gone
    {
      assert o !in covered - gone;
    }
    assert gone == covered;
    assert covered * refused == {};
    assert was - (was - gone) == gone;
  }

  /** A page of what is left goes, but for what is refused. */
  lemma {:induction false} SomeIsGone(was: set<Location>, gone: set<Location>, refused: set<Location>, at: Location, page: set<Location>, lucks: nat -> Luck)
    requires gone <= CoveredOf(was, at) - refused && page <= CoveredOf(was, at) - gone && page != {}
    ensures page * refused != {} ==> Purged(was, refused, at, lucks, (was - gone) - (page - refused), Err(Refused))
    ensures page * refused == {} ==>
              && (was - gone) - (page - refused) == was - (gone + page)
              && gone + page <= CoveredOf(was, at) - refused
              && |gone + page| == |gone| + |page|
              && |CoveredOf(was, at) - (gone + page)| < |CoveredOf(was, at) - gone|
  {
    var covered := CoveredOf(was, at);
    if page * refused != {} {
      var o :| o in page * refused;
      assert o in covered * refused;
      assert was - ((was - gone) - (page - refused)) <= gone + (page - refused);
    } else {
      assert page - refused == page by {
        forall o | o in page
          ensures o !in refused
        {
          assert o !in page * refused;
        }
      }
      assert covered - gone == (covered - (gone + page)) + page;
    }
  }

  /** A request failed: what is gone is gone, and the page it was about may be. */
  lemma {:induction false} RequestIsLost(was: set<Location>, gone: set<Location>, refused: set<Location>, at: Location,
                                         page: set<Location>, lucks: nat -> Luck, k: nat)
    requires gone <= CoveredOf(was, at) - refused && page <= CoveredOf(was, at) && !lucks(k).Answered?
    ensures Purged(was, refused, at, lucks, was - gone, Err(RequestFailed))
    ensures Purged(was, refused, at, lucks, (was - gone) - (page - refused), Err(RequestFailed))
  {
    assert was - (was - gone) <= gone;
    assert was - ((was - gone) - (page - refused)) <= gone + (page - refused);
  }

  class Store {
    var objects: set<Location>
    var refused: set<Location>    // what the provider would refuse to delete

    constructor (objects: set<Location>, refused: set<Location>)
      ensures this.objects == objects && this.refused == refused
    {
      this.objects, this.refused := objects, refused;
    }

    function Covered(at: Location): set<Location>
      reads this
    {
      CoveredOf(objects, at)
    }

    /** One page: some of what is there, and nothing only when nothing is. */
    method ListPage(at: Location, limit: nat) returns (page: set<Location>)
      requires limit > 0
      ensures page <= Covered(at) && |page| <= limit
      ensures page == {} ==> Covered(at) == {}
    {
      var rest := Covered(at);
      page := {};
      while |page| < limit && rest != {}
        invariant page <= Covered(at) && |page| <= limit && page !! rest && page + rest == Covered(at)
        decreases |rest|
      {
        var o :| o in rest;
        page, rest := page + {o}, rest - {o};
      }
    }

    /** DeleteObjects: deletes all it may, and says whether any was refused. */
    method DeleteObjects(page: set<Location>) returns (errors: bool)
      modifies this`objects
      ensures objects == old(objects) - (page - refused)
      ensures errors <==> page * refused != {}
    {
      objects := objects - (page - refused);
      errors := page * refused != {};
    }

    /** Ends, whatever the paging; request `2k` is the listing of round `k`, the next one its deletion. */
    method DeleteUnder(at: Location, lucks: nat -> Luck) returns (r: Result<nat, Problem>)
      modifies this`objects
      ensures Purged(old(objects), refused, at, lucks, objects, r)
    {
      ghost var was := objects;
      ghost var gone: set<Location> := {};
      var deleted, round := 0, 0;
      assert objects == was - gone;
      while true
        invariant gone <= CoveredOf(was, at) - refused && deleted == |gone| && round >= 0
        invariant objects == was - gone
        decreases |CoveredOf(was, at) - gone|
      {
        CoveredWithout(was, gone, at);
        if !lucks(2 * round).Answered? {
          RequestIsLost(was, gone, refused, at, {}, lucks, 2 * round);
          return Err(RequestFailed);
        }
        var page := ListPage(at, PAGE_SIZE);
        if page == {} {
          AllIsGone(was, gone, refused, at, lucks);
          return Ok(deleted);
        }
        var sent := lucks(2 * round + 1);
        if sent.NotDone? {
          RequestIsLost(was, gone, refused, at, page, lucks, 2 * round + 1);
          return Err(RequestFailed);
        }
        var errors := DeleteObjects(page);
        if sent.ReplyLost? {
          RequestIsLost(was, gone, refused, at, page, lucks, 2 * round + 1);
          return Err(RequestFailed);
        }
        SomeIsGone(was, gone, refused, at, page, lucks);
        if errors {
          return Err(Refused);
        }
        gone := gone + page;
        deleted, round := deleted + |page|, round + 1;
      }
    }

    /**
     What a tenant's deletion removes: its own objects, all of them and nothing else; then its bucket, if
     it has one of its own. `bucket` is the fate of that last request.
     */
    method PurgeTenant(mode: Mode, prefix: string, id: string, lucks: nat -> Luck, bucket: Luck) returns (r: Result<nat, Problem>)
      modifies this`objects
      ensures forall key :: r.Ok? ==> LocateTenant(mode, prefix, id, key) !in objects
      ensures r == Err(Refused) ==> exists key :: LocateTenant(mode, prefix, id, key) in old(objects) && LocateTenant(mode, prefix, id, key) in refused
      ensures r == Err(RequestFailed) ==> !AllAnswered(lucks) || (mode.BucketPerTenant? && !bucket.Answered?)
      ensures r.Ok? && mode.BucketPerTenant? ==> bucket.Answered?
      ensures AllAnswered(lucks) && r == Err(RequestFailed) ==> forall key :: LocateTenant(mode, prefix, id, key) !in objects
      ensures forall key :: LocateTenant(mode, prefix, id, key) in old(objects) && LocateTenant(mode, prefix, id, key) in refused ==>
                r.Err? && LocateTenant(mode, prefix, id, key) in objects
      ensures forall o :: o in old(objects) && !Under(LocateTenant(mode, prefix, id, ""), o) ==> o in objects
      ensures objects <= old(objects)
      ensures r.Ok? ==> r.value == |old(objects) - objects|
    {
      var at := LocateTenant(mode, prefix, id, "");
      ghost var was, covered := objects, Covered(at);
      r := DeleteUnder(at, lucks);
      assert covered == CoveredOf(was, at);
      forall o
        ensures Under(at, o) <==> exists key :: o == LocateTenant(mode, prefix, id, key)
      {
        PurgePrefixCoversOwn(mode, prefix, id, o);
      }
      assert forall o :: o in was && o !in objects ==> o in was - objects;
      assert forall o :: o in covered && o in refused ==> o in covered * refused;
      if r.Ok? {
        assert was - objects == covered;
      } else if r == Err(Refused) {
        ghost var o :| o in covered * refused;
        ghost var key :| o == LocateTenant(mode, prefix, id, key);
      }
      if r.Ok? && mode.BucketPerTenant? && !bucket.Answered? {
        r := Err(RequestFailed);
      }
    }

    /** Gives back the keys callers used, exactly those stored under the prefix, each once if the pages list each once. */
    method List(mode: Mode, prefix: string, id: string, under: string, pages: seq<seq<string>>) returns (keys: seq<string>)
      requires PagesList(pages, LocateTenant(mode, prefix, id, "").bucket, Covered(LocateTenant(mode, prefix, id, under)))
      ensures forall key :: key in keys <==> under <= key && LocateTenant(mode, prefix, id, key) in objects
      ensures EachOnce(pages) ==> forall a, b :: 0 <= a < b < |keys| ==> keys[a] != keys[b]
    {
      var tenantPrefix := LocateTenant(mode, prefix, id, "").key;
      keys := [];
      for p := 0 to |pages|
        invariant forall key :: key in keys <==> exists q, i :: 0 <= q < p && 0 <= i < |pages[q]| && pages[q][i] == tenantPrefix + key
        invariant EachOnce(pages) ==> forall a, b :: 0 <= a < b < |keys| ==> keys[a] != keys[b]
      {
        ghost var before := keys;
        for i := 0 to |pages[p]|
          invariant forall key :: key in keys <==> key in before || exists j :: 0 <= j < i && pages[p][j] == tenantPrefix + key
          invariant EachOnce(pages) ==> forall a, b :: 0 <= a < b < |keys| ==> keys[a] != keys[b]
        {
          ListedKey(this, mode, prefix, id, under, pages, p, i);
          var key := pages[p][i][|tenantPrefix|..];
          assert pages[p][i] == tenantPrefix + key;
          assert EachOnce(pages) ==> key !in keys;
          keys := keys + [key];
        }
      }
      forall key
        ensures key in keys <==> under <= key && LocateTenant(mode, prefix, id, key) in objects
      {
        KeyIsUnder(mode, prefix, id, under, key);
        assert key in keys <==> IsListed(pages, tenantPrefix + key);
      }
    }
  }

  lemma {:induction false} KeyIsUnder(mode: Mode, prefix: string, id: string, under: string, key: string)
    ensures LocateTenant(mode, prefix, id, key) == Location(LocateTenant(mode, prefix, id, "").bucket, LocateTenant(mode, prefix, id, "").key + key)
    ensures Under(LocateTenant(mode, prefix, id, under), LocateTenant(mode, prefix, id, key)) <==> under <= key
  {
    var front := LocateTenant(mode, prefix, id, "").key;
    assert LocateTenant(mode, prefix, id, key).key == front + key && LocateTenant(mode, prefix, id, under).key == front + under;
    if front + under <= front + key {
      assert key[..|under|] == (front + key)[..|front + under|][|front|..];
    }
  }

  lemma {:induction false} ListedKey(s: Store, mode: Mode, prefix: string, id: string, under: string, pages: seq<seq<string>>, p: nat, i: nat)
    requires p < |pages| && i < |pages[p]|
    requires PagesList(pages, LocateTenant(mode, prefix, id, "").bucket, s.Covered(LocateTenant(mode, prefix, id, under)))
    ensures var front := LocateTenant(mode, prefix, id, "").key;
            front <= pages[p][i] && pages[p][i] == front + pages[p][i][|front|..]
  {
    var front := LocateTenant(mode, prefix, id, "").key;
    assert LocateTenant(mode, prefix, id, under).key == front + under;
    assert IsListed(pages, pages[p][i]);
    assert Location(LocateTenant(mode, prefix, id, "").bucket, pages[p][i]) in s.Covered(LocateTenant(mode, prefix, id, under));
    assert front + under <= pages[p][i];
  }
}
