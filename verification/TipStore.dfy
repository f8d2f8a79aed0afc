/**
 network/ipldstore.go: which tip a did has. Own trees are in a key-value store; the last hundred tips this
 process made or looked at are in an LRU cache; everything else is asked of remote signers, which may lag.
 */
module TipStore {
  import opened Wrappers

  type Did = string
  type Tip = nat

  const CACHE_SIZE := 100

  datatype Entry = Entry(did: Did, tip: Tip)

  /** cache is in order of use, most recent first. */
  datatype Store = Store(keyValue: map<Did, Tip>, cache: seq<Entry>)

  function Drop(cache: seq<Entry>, did: Did): (r: seq<Entry>)
    ensures |r| <= |cache|
    ensures forall e :: e in r <==> e in cache && e.did != did
  {
    if cache == [] then []
    else if cache[0].did == did then Drop(cache[1..], did)
    else [cache[0]] + Drop(cache[1..], did)
  }

  function Lookup(cache: seq<Entry>, did: Did): Option<Tip> {
    if cache == [] then None
    else if cache[0].did == did then Some(cache[0].tip)
    else Lookup(cache[1..], did)
  }

  function Cut(cache: seq<Entry>): seq<Entry> {
    if |cache| > CACHE_SIZE then cache[..CACHE_SIZE] else cache
  }

  /** lru.Add: to the front, the least recently used entry falling off the end. */
  function Put(cache: seq<Entry>, did: Did, tip: Tip): seq<Entry> {
    Cut([Entry(did, tip)] + Drop(cache, did))
  }

  /** lru.Get: a hit moves to the front. */
  function Touch(cache: seq<Entry>, did: Did): seq<Entry> {
    match Lookup(cache, did)
    case Some(tip) => [Entry(did, tip)] + Drop(cache, did)
    case None => cache
  }

  ghost predicate DistinctDids(cache: seq<Entry>) {
    forall i, j | 0 <= i < j < |cache| :: cache[i].did != cache[j].did
  }

  ghost predicate Valid(s: Store) {
    DistinctDids(s.cache) && |s.cache| <= CACHE_SIZE
  }

  /** A did in both places has the same tip in each. */
  ghost predicate Agree(s: Store) {
    forall did | did in s.keyValue && Lookup(s.cache, did).Some? :: Lookup(s.cache, did) == Some(s.keyValue[did])
  }

  /** What getTip answers; roots holds the heights of the tips whose root nodes can be read. */
  function TipAnswer(s: Store, did: Did, remote: Result<Option<Tip>>, roots: map<Tip, nat>): Result<Option<Tip>> {
    if did in s.keyValue then Ok(Some(s.keyValue[did]))
    else
      match remote
      case Ok(tip) =>
        (match Lookup(s.cache, did)
         case None => Ok(tip)
         case Some(cached) =>
           if tip.None? then Ok(Some(cached))
           else if cached in roots && tip.value in roots && roots[cached] > roots[tip.value] then Ok(Some(cached))
           else Ok(tip))
      case Err(e) => Err(e)
      case Panicked => Panicked
  }

  /** What an operation leaves behind: metadata written and no write lost. */
  datatype Event =
    | Save(did: Did, tip: Tip)
    | Update(did: Did, tip: Tip)
    | GetTip(did: Did, remote: Result<Option<Tip>>)

  function Next(s: Store, event: Event): Store {
    match event
    case Save(did, tip) => Store(s.keyValue[did := tip], Put(s.cache, did, tip))
    case Update(did, tip) =>
      Store(if did in s.keyValue then s.keyValue[did := tip] else s.keyValue, Put(s.cache, did, tip))
    case GetTip(did, remote) =>
      if did !in s.keyValue && remote.Ok? then s.(cache := Touch(s.cache, did)) else s
  }

  /** The cache entry an event moves to the front. */
  function Touched(s: Store, event: Event): Option<Did> {
    match event
    case GetTip(did, remote) =>
      if did !in s.keyValue && remote.Ok? && Lookup(s.cache, did).Some? then Some(did) else None
    case _ => Some(event.did)
  }

  class IPLDTreeStore {
    var keyValue: map<Did, Tip>
    var cache: seq<Entry>

    function Contents(): Store
      reads this
    {
      Store(keyValue, cache)
    }

    constructor ()
      ensures Contents() == Store(map[], []) && Valid(Contents()) && Agree(Contents())
    {
      keyValue, cache := map[], [];
    }

    method GetTipOf(did: Did, remote: Result<Option<Tip>>, roots: map<Tip, nat>)
      returns (r: Result<Option<Tip>>, isRemote: bool)
      modifies this`cache
      ensures r == TipAnswer(old(Contents()), did, remote, roots)
      ensures Contents() == Next(old(Contents()), GetTip(did, remote))
      ensures isRemote <==> did !in keyValue
    {
      if did in keyValue {
        return Ok(Some(keyValue[did])), false;
      }
      isRemote := true;
      if !remote.Ok? {
        return remote, isRemote;
      }
      var tip := remote.value;
      var found := Lookup(cache, did);
      cache := Touch(cache, did);
      if found.Some? && tip.None? {
        return Ok(found), isRemote;
      }
      if found.Some? && found != tip {
        if found.value !in roots {
          return Ok(tip), isRemote;
        }
        if tip.value !in roots {
          return Ok(tip), isRemote;
        }
        if roots[found.value] > roots[tip.value] {
          return Ok(found), isRemote;
        }
      }
      r := Ok(tip);
    }

    /** signaturesStored and tipStored say whether the key-value store takes each write. */
    method SaveTreeMetadata(did: Did, tip: Tip, signaturesStored: bool, tipStored: bool) returns (r: Result<Unit>)
      modifies this
      ensures r.Ok? <==> signaturesStored && tipStored
      ensures r.Ok? ==> Contents() == Next(old(Contents()), Save(did, tip))
      ensures !signaturesStored ==> Contents() == old(Contents())
      ensures signaturesStored && !tipStored ==> Contents() == old(Contents()).(cache := Put(old(cache), did, tip))
    {
      if !signaturesStored {
        return Err("error setting sigs");
      }
      cache := Put(cache, did, tip);
      if !tipStored {
        return Err("error putting tip");
      }
      keyValue := keyValue[did := tip];
      r := Ok(Unit);
    }

    method UpdateTreeMetadata(did: Did, tip: Tip, signaturesStored: bool, tipStored: bool) returns (r: Result<Unit>)
      modifies this
      ensures r.Ok? ==> Contents() == Next(old(Contents()), Update(did, tip))
      ensures r.Ok? <==> did !in old(keyValue) || (signaturesStored && tipStored)
      ensures !r.Ok? ==>
                Contents() ==
                if signaturesStored then old(Contents()).(cache := Put(old(cache), did, tip)) else old(Contents())
    {
      var has := did in keyValue;
      if has {
        r := SaveTreeMetadata(did, tip, signaturesStored, tipStored);
        return;
      }
      cache := Put(cache, did, tip);
      r := Ok(Unit);
    }
  }

  lemma {:induction false} LookupDrop(cache: seq<Entry>, did: Did, other: Did)
    ensures Lookup(Drop(cache, did), other) == if other == did then None else Lookup(cache, other)
  {
    if cache != [] {
      LookupDrop(cache[1..], did, other);
    }
  }

  lemma {:induction false} DropKeepsDistinct(cache: seq<Entry>, did: Did)
    requires DistinctDids(cache)
    ensures DistinctDids(Drop(cache, did))
    ensures forall e :: e in Drop(cache, did) ==> e.did != did
    ensures Lookup(cache, did).Some? ==> |Drop(cache, did)| < |cache|
  {
    if cache != [] {
      DropKeepsDistinct(cache[1..], did);
      if cache[0].did != did {
        forall e | e in Drop(cache[1..], did) ensures e.did != cache[0].did {
          var k :| 0 <= k < |cache[1..]| && cache[1..][k] == e;
          assert cache[k + 1] == e;
        }
      }
    }
  }

  lemma NextKeepsValid(s: Store, event: Event)
    requires Valid(s)
    ensures Valid(Next(s, event))
  {
    DropKeepsDistinct(s.cache, event.did);
  }

  lemma {:induction false} LookupCut(cache: seq<Entry>, n: nat, did: Did)
    requires n <= |cache|
    ensures Lookup(cache[..n], did).Some? ==> Lookup(cache[..n], did) == Lookup(cache, did)
  {
    if n > 0 && cache[0].did != did {
      assert cache[..n][1..] == cache[1..][..n - 1];
      LookupCut(cache[1..], n - 1, did);
    }
  }

  /** What the cache holds for a did after the front entry is set. */
  lemma LookupAfterPut(cache: seq<Entry>, did: Did, tip: Tip, other: Did)
    ensures Lookup(Put(cache, did, tip), did) == Some(tip)
    ensures other != did && Lookup(Put(cache, did, tip), other).Some? ==>
              Lookup(Put(cache, did, tip), other) == Lookup(cache, other)
  {
    var all := [Entry(did, tip)] + Drop(cache, did);
    assert all[1..] == Drop(cache, did);
    LookupDrop(cache, did, other);
    if |all| > CACHE_SIZE {
      LookupCut(all, CACHE_SIZE, other);
    }
  }

  lemma LookupAfterTouch(cache: seq<Entry>, did: Did, other: Did)
    ensures Lookup(Touch(cache, did), other) == Lookup(cache, other)
  {
    if Lookup(cache, did).Some? {
      assert Touch(cache, did)[1..] == Drop(cache, did);
      LookupDrop(cache, did, other);
    }
  }

  /** Every completed operation keeps the two places in agreement. */
  lemma NextKeepsAgreement(s: Store, event: Event)
    requires Agree(s)
    ensures Agree(Next(s, event))
  {
    var s' := Next(s, event);
    forall did | did in s'.keyValue && Lookup(s'.cache, did).Some?
      ensures Lookup(s'.cache, did) == Some(s'.keyValue[did])
    {
      if event.GetTip? {
        LookupAfterTouch(s.cache, event.did, did);
      } else {
        LookupAfterPut(s.cache, event.did, event.tip, did);
      }
    }
  }

  /** A lost write of the tip, which SaveTreeMetadata reports, breaks it exactly for a did stored with another tip. */
  lemma LostPutBreaksAgreement(s: Store, did: Did, tip: Tip)
    requires Agree(s)
    ensures Agree(s.(cache := Put(s.cache, did, tip))) <==> (did in s.keyValue ==> s.keyValue[did] == tip)
  {
    LookupAfterPut(s.cache, did, tip, did);
    forall other | other != did {
      LookupAfterPut(s.cache, did, tip, other);
    }
  }

  function After(s: Store, events: seq<Event>): Store {
    if events == [] then s else Next(After(s, events[..|events| - 1]), events[|events| - 1])
  }

  lemma {:induction false} AfterKeepsValid(s: Store, events: seq<Event>)
    requires Valid(s)
    ensures Valid(After(s, events))
  {
    if events != [] {
      AfterKeepsValid(s, events[..|events| - 1]);
      NextKeepsValid(After(s, events[..|events| - 1]), events[|events| - 1]);
    }
  }

  lemma {:induction false} AfterKeepsAgreement(s: Store, events: seq<Event>)
    requires Agree(s)
    ensures Agree(After(s, events))
  {
    if events != [] {
      AfterKeepsAgreement(s, events[..|events| - 1]);
      NextKeepsAgreement(After(s, events[..|events| - 1]), events[|events| - 1]);
    }
  }

  /** The other dids used since the given one was: recorded, or asked for and found in the cache. */
  function UsedSince(s: Store, events: seq<Event>, did: Did): set<Did> {
    if events == [] then {}
    else
      var n := |events| - 1;
      match Touched(After(s, events[..n]), events[n])
      case None => UsedSince(s, events[..n], did)
      case Some(t) => if t == did then {} else UsedSince(s, events[..n], did) + {t}
  }

  predicate Records(event: Event, did: Did) {
    !event.GetTip? && event.did == did
  }

  /** The dids in front of the given one. */
  function Ahead(cache: seq<Entry>, did: Did): set<Did> {
    if cache == [] || cache[0].did == did then {} else {cache[0].did} + Ahead(cache[1..], did)
  }

  lemma {:induction false} AheadIsInCache(cache: seq<Entry>, did: Did, d: Did)
    requires d in Ahead(cache, did)
    ensures exists k | 0 <= k < |cache| :: cache[k].did == d
  {
    if cache[0].did != d {
      AheadIsInCache(cache[1..], did, d);
      var k :| 0 <= k < |cache[1..]| && cache[1..][k].did == d;
      assert cache[k + 1].did == d;
    }
  }

  lemma {:induction false} AheadAfterDrop(cache: seq<Entry>, other: Did, did: Did)
    requires other != did
    ensures Ahead(Drop(cache, other), did) == Ahead(cache, did) - {other}
  {
    if cache != [] {
      AheadAfterDrop(cache[1..], other, did);
      if cache[0].did != other {
        assert Drop(cache, other)[1..] == Drop(cache[1..], other);
      }
    }
  }

  /** A cut keeps an entry exactly when fewer others are in front of it than there is room for. */
  lemma {:induction false} AheadAfterCut(cache: seq<Entry>, n: nat, did: Did)
    requires DistinctDids(cache) && n <= |cache| && Lookup(cache, did).Some?
    ensures Lookup(cache[..n], did).Some? <==> |Ahead(cache, did)| < n
    ensures Lookup(cache[..n], did).Some? ==> Ahead(cache[..n], did) == Ahead(cache, did)
  {
    if cache[0].did != did {
      var rest := cache[1..];
      forall d | d in Ahead(rest, did) ensures d != cache[0].did {
        AheadIsInCache(rest, did, d);
        var k :| 0 <= k < |rest| && rest[k].did == d;
        assert cache[k + 1].did == d;
      }
      if n > 0 {
        AheadAfterCut(rest, n - 1, did);
        assert cache[..n][1..] == rest[..n - 1];
      }
    }
  }

  /** Using another did: the given one stays exactly while there is room, behind all the others used. */
  lemma AheadAfterFront(cache: seq<Entry>, other: Did, tip: Tip, did: Did)
    requires DistinctDids(cache) && other != did && Lookup(cache, did).Some?
    ensures var all := [Entry(other, tip)] + Drop(cache, other);
            DistinctDids(all) && Lookup(all, did) == Lookup(cache, did) &&
            Ahead(all, did) == Ahead(cache, did) + {other}
  {
    var all := [Entry(other, tip)] + Drop(cache, other);
    assert all[1..] == Drop(cache, other);
    LookupDrop(cache, other, did);
    AheadAfterDrop(cache, other, did);
    DropKeepsDistinct(cache, other);
  }

  ghost predicate Tracked(s: Store, did: Did, tip: Tip, used: set<Did>) {
    if Lookup(s.cache, did).Some? then
      Lookup(s.cache, did) == Some(tip) && Ahead(s.cache, did) == used && |used| < CACHE_SIZE
    else |used| >= CACHE_SIZE
  }

  lemma TrackedStep(s: Store, event: Event, did: Did, tip: Tip, used: set<Did>)
    requires Valid(s) && Tracked(s, did, tip, used) && !Records(event, did)
    ensures match Touched(s, event)
            case None => Tracked(Next(s, event), did, tip, used)
            case Some(t) => Tracked(Next(s, event), did, tip, if t == did then {} else used + {t})
  {
    var t := Touched(s, event);
    if t.Some? && t.value != did {
      var front := if event.GetTip? then Lookup(s.cache, t.value).value else event.tip;
      var all := [Entry(t.value, front)] + Drop(s.cache, t.value);
      if Lookup(s.cache, did).Some? {
        AheadAfterFront(s.cache, t.value, front, did);
        DropKeepsDistinct(s.cache, t.value);
        AheadFits(all, did);
        if |all| > CACHE_SIZE {
          AheadAfterCut(all, CACHE_SIZE, did);
          LookupCut(all, CACHE_SIZE, did);
        }
      } else {
        assert used <= used + {t.value};
        SubsetSize(used, used + {t.value});
        StaysAbsent(s.cache, t.value, front, did);
      }
    }
  }

  lemma StaysAbsent(cache: seq<Entry>, other: Did, tip: Tip, did: Did)
    requires Lookup(cache, did).None? && other != did
    ensures Lookup(Put(cache, other, tip), did).None?
    ensures Lookup(Touch(cache, other), did).None?
  {
    LookupAfterPut(cache, other, tip, did);
    LookupAfterTouch(cache, other, did);
  }

  /** No more others in front than the cache has other entries. */
  lemma {:induction false} AheadFits(cache: seq<Entry>, did: Did)
    requires Lookup(cache, did).Some?
    ensures |Ahead(cache, did)| < |cache|
  {
    if cache[0].did != did {
      AheadFits(cache[1..], did);
      SubsetSize(Ahead(cache[1..], did), Ahead(cache, did));
    }
  }

  lemma {:induction false} SubsetSize<T>(a: set<T>, b: set<T>)
    requires a <= b
    ensures |a| <= |b| <= |a| + |b - a|
  {
    assert b == a + (b - a);
  }

  /**
   The least-recently-used law: a recorded did is still cached exactly when fewer than a hundred other dids
   were used since it was last used, and its tip is then the recorded one.
   */
  lemma {:induction false} CachedIffFewUsed(s: Store, events: seq<Event>, did: Did, tip: Tip)
    requires Valid(s) && s.cache != [] && s.cache[0] == Entry(did, tip)
    requires forall e :: e in events ==> !Records(e, did)
    ensures Lookup(After(s, events).cache, did) == if |UsedSince(s, events, did)| < CACHE_SIZE then Some(tip) else None
    ensures Tracked(After(s, events), did, tip, UsedSince(s, events, did))
  {
    if events != [] {
      var n := |events| - 1;
      CachedIffFewUsed(s, events[..n], did, tip);
      AfterKeepsValid(s, events[..n]);
      assert events[n] in events;
      TrackedStep(After(s, events[..n]), events[n], did, tip, UsedSince(s, events[..n], did));
    }
  }

  lemma {:induction false} StoredTipStays(s: Store, events: seq<Event>, did: Did)
    requires did in s.keyValue
    requires forall e :: e in events ==> !Records(e, did)
    ensures did in After(s, events).keyValue && After(s, events).keyValue[did] == s.keyValue[did]
  {
    if events != [] {
      StoredTipStays(s, events[..|events| - 1], did);
      assert events[|events| - 1] in events;
    }
  }

  /** The height of an answer, when there is one to read. */
  ghost predicate NoLower(answer: Result<Option<Tip>>, roots: map<Tip, nat>, tip: Tip)
    requires tip in roots
  {
    answer.Ok? && answer.value.Some? && answer.value.value in roots && roots[answer.value.value] >= roots[tip]
  }

  lemma KnownTipAnswers(s: Store, did: Did, remote: Result<Option<Tip>>, roots: map<Tip, nat>, tip: Tip)
    requires tip in roots && remote.Ok? && (remote.value.Some? ==> remote.value.value in roots)
    requires if did in s.keyValue then s.keyValue[did] == tip else Lookup(s.cache, did) == Some(tip)
    ensures NoLower(TipAnswer(s, did, remote, roots), roots, tip)
  {
  }

  /**
   Read your writes over a stale remote: after a did's tip is recorded, and until it is recorded again, getTip
   answers a tip at least as high whatever the remote says, provided the roots can be read and either the did is
   in the key-value store or fewer than a hundred other dids were used since its last use.
   */
  lemma ReadYourWrites(s: Store, record: Event, events: seq<Event>, remote: Result<Option<Tip>>, roots: map<Tip, nat>)
    requires Valid(s) && !record.GetTip?
    requires forall e :: e in events ==> !Records(e, record.did)
    requires record.tip in roots && remote.Ok? && (remote.value.Some? ==> remote.value.value in roots)
    requires record.did in Next(s, record).keyValue || |UsedSince(Next(s, record), events, record.did)| < CACHE_SIZE
    ensures NoLower(TipAnswer(After(Next(s, record), events), record.did, remote, roots), roots, record.tip)
  {
    var recorded := Next(s, record);
    NextKeepsValid(s, record);
    LookupAfterPut(s.cache, record.did, record.tip, record.did);
    RecordedEitherWay(s, record);
    hide After, Next, TipAnswer, UsedSince, Lookup, NoLower, Put;
    if record.did in recorded.keyValue {
      StoredTipStays(recorded, events, record.did);
    } else {
      CachedIffFewUsed(recorded, events, record.did, record.tip);
      StaysUnstored(recorded, events, record.did);
    }
    KnownTipAnswers(After(recorded, events), record.did, remote, roots, record.tip);
  }

  /**
   A did that is not stored gets the highest tip there is: its cached one exactly if the remote has none or a readable
   lower one. So a newer tip of the remote's is never held back, and at equal heights, or when one of the roots cannot
   be read, the remote is believed.
   */
  lemma AnswerIsNewest(s: Store, did: Did, tip: Option<Tip>, roots: map<Tip, nat>)
    requires did !in s.keyValue
    ensures var cached, answer := Lookup(s.cache, did), TipAnswer(s, did, Ok(tip), roots);
            && (answer == Ok(cached) || answer == Ok(tip))
            && (answer != Ok(tip) ==>
                  cached.Some? &&
                  (tip.None? ||
                   (cached.value in roots && tip.value in roots && roots[tip.value] < roots[cached.value])))
            && (tip.Some? && tip.value in roots && (cached.Some? ==> cached.value in roots) ==>
                  NoLower(answer, roots, tip.value))
            && (cached.Some? && tip.None? ==> answer == Ok(cached))
  {
  }

  /** A did that was saved, or updated when it was stored, is answered from the store for good. */
  lemma StoredIsAnswered(s: Store, record: Event, events: seq<Event>, remote: Result<Option<Tip>>,
                         roots: map<Tip, nat>)
    requires record.Save? || (record.Update? && record.did in s.keyValue)
    requires forall e :: e in events ==> !Records(e, record.did)
    ensures TipAnswer(After(Next(s, record), events), record.did, remote, roots) == Ok(Some(record.tip))
  {
    StoredTipStays(Next(s, record), events, record.did);
  }

  /** Only saving stores a did; an update or a lookup never adds one. */
  lemma {:induction false} OnlySavedAreStored(s: Store, events: seq<Event>, did: Did)
    ensures did in After(s, events).keyValue <==>
            did in s.keyValue || exists i :: 0 <= i < |events| && events[i].Save? && events[i].did == did
  {
    if events != [] {
      var n := |events| - 1;
      OnlySavedAreStored(s, events[..n], did);
      if events[n].Save? && events[n].did == did {
        assert events[n].did == did;
      }
      if i :| 0 <= i < n && events[i].Save? && events[i].did == did {
        assert events[..n][i].did == did;
      }
    }
  }

  lemma RecordedEitherWay(s: Store, record: Event)
    requires !record.GetTip?
    ensures var recorded := Next(s, record);
            recorded.cache != [] && recorded.cache[0] == Entry(record.did, record.tip) &&
            (record.did in recorded.keyValue ==> recorded.keyValue[record.did] == record.tip)
  {
  }

  lemma {:induction false} StaysUnstored(s: Store, events: seq<Event>, did: Did)
    requires did !in s.keyValue
    requires forall e :: e in events ==> !Records(e, did)
    ensures did !in After(s, events).keyValue
  {
    if events != [] {
      StaysUnstored(s, events[..|events| - 1], did);
      assert events[|events| - 1] in events;
    }
  }

  /** Once a hundred others were used, a did that is not stored gets whatever the remote answers. */
  lemma ForgottenAfterHundred(s: Store, record: Event, events: seq<Event>, remote: Result<Option<Tip>>,
                              roots: map<Tip, nat>)
    requires Valid(s) && !record.GetTip?
    requires forall e :: e in events ==> !Records(e, record.did)
    requires |UsedSince(Next(s, record), events, record.did)| >= CACHE_SIZE
    requires record.did !in After(Next(s, record), events).keyValue
    ensures TipAnswer(After(Next(s, record), events), record.did, remote, roots) == remote
  {
    NextKeepsValid(s, record);
    CachedIffFewUsed(Next(s, record), events, record.did, record.tip);
  }

  /** Looking up each of some cached dids in turn, the remote not knowing any. */
  function LookUpAll(dids: seq<Did>): (events: seq<Event>)
    ensures |events| == |dids|
  {
    if dids == [] then [] else LookUpAll(dids[..|dids| - 1]) + [GetTip(dids[|dids| - 1], Ok(None))]
  }

  lemma {:induction false} LookUpsUse(s: Store, did: Did, dids: seq<Did>)
    requires s.keyValue == map[] && did !in dids
    requires forall d :: d in dids ==> Lookup(s.cache, d).Some?
    ensures After(s, LookUpAll(dids)).keyValue == map[]
    ensures forall d :: Lookup(After(s, LookUpAll(dids)).cache, d) == Lookup(s.cache, d)
    ensures UsedSince(s, LookUpAll(dids), did) == set d | d in dids
    ensures forall e :: e in LookUpAll(dids) ==> e.GetTip?
  {
    if dids != [] {
      var n := |dids| - 1;
      assert dids == dids[..n] + [dids[n]];
      LookUpsUse(s, did, dids[..n]);
      assert LookUpAll(dids)[..n] == LookUpAll(dids[..n]);
      forall d {
        LookupAfterTouch(After(s, LookUpAll(dids[..n])).cache, dids[n], d);
      }
    }
  }

  /**
   Lookups count as uses: with the cache full, looking up the ninety-nine others and recording one new did
   forgets the first, although only one other did was recorded since.
   */
  lemma LookupsFlushTheCache(s: Store, did: Did, tip: Tip, others: seq<Did>, newcomer: Did, newTip: Tip)
    returns (events: seq<Event>)
    requires Valid(s) && s.keyValue == map[] && s.cache != [] && s.cache[0] == Entry(did, tip)
    requires did !in others && newcomer !in others && newcomer != did && |(set d | d in others)| == CACHE_SIZE - 1
    requires forall d :: d in others ==> Lookup(s.cache, d).Some?
    ensures Lookup(After(s, events).cache, did).None? && did !in After(s, events).keyValue
    ensures forall e :: e in events ==> e.GetTip? || e.did == newcomer
  {
    LookUpsUse(s, did, others);
    events := LookUpAll(others) + [Update(newcomer, newTip)];
    assert events[..|events| - 1] == LookUpAll(others);
    assert |(set d | d in others) + {newcomer}| == CACHE_SIZE;
    CachedIffFewUsed(s, events, did, tip);
  }
}
