/**
 * The free-model catalogue built once at start-up (app.py `fetch_free_models`):
 * the ids of the listed models whose prompt and completion prices are both the
 * string "0", with the auto-router moved to the front, or a fixed fallback list
 * when the listing cannot be obtained.
 */
module Catalog {
  import opened Wrappers

  /** The auto-router that always heads the priority list. */
  const AUTO_ROUTER: string := "openrouter/free"

  /** The list used when the listing request fails. */
  const FALLBACK: seq<string> := [AUTO_ROUTER, "liquid/lfm-2.5-1.2b-instruct:free", "google/gemma-3-27b-it:free"]

  /** The price string of a free model. */
  const ZERO_PRICE: string := "0"

  /** One decoded entry of the listing's `data` array: its `id` and the
      `prompt` and `completion` strings of its `pricing` object (None for a
      missing key; a missing `pricing` object leaves both None). */
  datatype ListedModel = ListedModel(id: Option<string>, prompt: Option<string>, completion: Option<string>)

  /** What the listing request produced. `data` is None when the body is not
      JSON; a body without a `data` key decodes to an empty listing. */
  datatype ListingReply =
    | Listing(status: int, data: Option<seq<ListedModel>>)
    | Unreachable   // the request itself raised (connection error, timeout)

  predicate IsFree(m: ListedModel) {
    m.prompt == Some(ZERO_PRICE) && m.completion == Some(ZERO_PRICE)
  }

  /** The ids of the free entries, in listing order; None when a free entry
      has no id, where `m["id"]` raises and the fallback is used. */
  function FreeIds(ms: seq<ListedModel>): (r: Option<seq<string>>)
    ensures r.None? <==> exists j :: 0 <= j < |ms| && IsFree(ms[j]) && ms[j].id.None?
    ensures r.Some? ==> forall x :: x in r.value <==> exists j :: 0 <= j < |ms| && IsFree(ms[j]) && ms[j].id == Some(x)
    decreases |ms|
  {
    if ms == [] then Some([])
    else
      var init := ms[..|ms| - 1];
      var last := ms[|ms| - 1];
      assert forall j :: 0 <= j < |init| ==> init[j] == ms[j];
      match FreeIds(init)
      case None => None
      case Some(ids) =>
        if !IsFree(last) then Some(ids)
        else if last.id.None? then None
        else Some(ids + [last.id.value])
  }

  /** One iteration of the filter loop over the ids collected so far. */
  function Scan(acc: Option<seq<string>>, m: ListedModel): Option<seq<string>> {
    match acc
    case None => None
    case Some(ids) =>
      if !IsFree(m) then Some(ids)
      else if m.id.None? then None
      else Some(ids + [m.id.value])
  }

  /** The ids of two consecutive stretches of the listing, in order. */
  function Join(x: Option<seq<string>>, y: Option<seq<string>>): Option<seq<string>> {
    if x.Some? && y.Some? then Some(x.value + y.value) else None
  }

  /** Filtering a non-empty listing is filtering all but its last entry and scanning that. */
  lemma FreeIdsLast(ms: seq<ListedModel>)
    requires ms != []
    ensures FreeIds(ms) == Scan(FreeIds(ms[..|ms| - 1]), ms[|ms| - 1])
  {
  }

  lemma JoinScan(x: Option<seq<string>>, y: Option<seq<string>>, m: ListedModel)
    ensures Join(x, Scan(y, m)) == Scan(Join(x, y), m)
  {
    if x.Some? && y.Some? && IsFree(m) && m.id.Some? {
      assert x.value + y.value + [m.id.value] == x.value + (y.value + [m.id.value]);
    }
  }

  /** Filtering a listing split in two is filtering each part and joining
      the results in order: the ids keep the listing order, and a free entry
      without an id in either part sends the whole listing to the fallback. */
  lemma {:induction false} FreeIdsConcat(a: seq<ListedModel>, b: seq<ListedModel>)
    ensures FreeIds(a + b) == Join(FreeIds(a), FreeIds(b))
    decreases |b|
  {
    if b == [] {
      assert a + b == a;
      if FreeIds(a).Some? {
        assert FreeIds(a).value + [] == FreeIds(a).value;
      }
    } else {
      var b' := b[..|b| - 1];
      var last := b[|b| - 1];
      calc {
        FreeIds(a + b);
        { FreeIdsLast(a + b);
          assert (a + b)[..|a + b| - 1] == a + b';
          assert (a + b)[|a + b| - 1] == last; }
        Scan(FreeIds(a + b'), last);
        { FreeIdsConcat(a, b'); }
        Scan(Join(FreeIds(a), FreeIds(b')), last);
        { JoinScan(FreeIds(a), FreeIds(b'), last); }
        Join(FreeIds(a), Scan(FreeIds(b'), last));
        { FreeIdsLast(b); }
        Join(FreeIds(a), FreeIds(b));
      }
    }
  }

  /** How many free entries of the listing carry the id `x`. */
  function FreeCount(ms: seq<ListedModel>, x: string): nat
    decreases |ms|
  {
    if ms == [] then 0
    else FreeCount(ms[..|ms| - 1], x) + (if IsFree(ms[|ms| - 1]) && ms[|ms| - 1].id == Some(x) then 1 else 0)
  }

  /** Each collected id occurs exactly as often as there are free entries
      carrying it: nothing is merged or dropped. */
  lemma {:induction false} FreeIdsCount(ms: seq<ListedModel>, x: string)
    requires FreeIds(ms).Some?
    ensures multiset(FreeIds(ms).value)[x] == FreeCount(ms, x)
    decreases |ms|
  {
    if ms != [] {
      var init := ms[..|ms| - 1];
      var last := ms[|ms| - 1];
      FreeIdsLast(ms);
      FreeIdsCount(init, x);
      if IsFree(last) {
        var ids := FreeIds(init).value;
        assert multiset(ids + [last.id.value]) == multiset(ids) + multiset{last.id.value};
      }
    }
  }

  /** Scanning one more entry of the listing. */
  lemma FreeIdsExtend(ms: seq<ListedModel>, i: nat)
    requires i < |ms|
    ensures FreeIds(ms[..i + 1]) ==
      match FreeIds(ms[..i])
      case None => None
      case Some(ids) =>
        if !IsFree(ms[i]) then Some(ids)
        else if ms[i].id.None? then None
        else Some(ids + [ms[i].id.value])
  {
    assert ms[..i + 1][..i] == ms[..i];
  }

  /** A free entry without an id anywhere in the listing sends the whole
      listing to the fallback. */
  lemma FreeIdsNone(ms: seq<ListedModel>, i: nat)
    requires i <= |ms| && FreeIds(ms[..i]).None?
    ensures FreeIds(ms).None?
  {
    var j :| 0 <= j < i && IsFree(ms[..i][j]) && ms[..i][j].id.None?;
    assert ms[j] == ms[..i][j];
  }

  /** Python's `list.remove(x)` when `x` is present, and the identity otherwise. */
  function RemoveFirst(s: seq<string>, x: string): (r: seq<string>)
    ensures x !in s ==> r == s
    ensures x in s ==> |r| == |s| - 1
  {
    if s == [] then []
    else if s[0] == x then s[1..]
    else [s[0]] + RemoveFirst(s[1..], x)
  }

  /** Removing the first occurrence takes exactly one copy of `x` out, if there is one. */
  lemma {:induction false} RemoveFirstMultiset(s: seq<string>, x: string)
    ensures multiset(RemoveFirst(s, x)) == multiset(s) - multiset{x}
  {
    if s != [] {
      assert s == [s[0]] + s[1..];
      if s[0] != x {
        RemoveFirstMultiset(s[1..], x);
      }
    }
  }

  /** Removing the first occurrence cuts the sequence at that occurrence. */
  lemma {:induction false} RemoveFirstAt(s: seq<string>, x: string, k: nat)
    requires k < |s| && s[k] == x
    requires forall j :: 0 <= j < k ==> s[j] != x
    ensures RemoveFirst(s, x) == s[..k] + s[k + 1..]
  {
    if k == 0 {
      assert s[..0] + s[1..] == s[1..];
    } else {
      var t := s[1..];
      assert t[0] == s[1];
      assert forall j :: 0 <= j < k - 1 ==> t[j] == s[j + 1];
      RemoveFirstAt(t, x, k - 1);
      assert RemoveFirst(s, x) == [s[0]] + RemoveFirst(t, x);
      assert t[..k - 1] == s[1..k];
      assert t[k..] == s[k + 1..];
      assert [s[0]] + s[1..k] == s[..k];
    }
  }

  /** The catalogue the listing reply determines: the auto-router followed by
      the free ids with its first occurrence removed, or the fallback list
      when the status is not 200, the body is not JSON, a free entry has no
      id, or the request failed. */
  function CatalogueOf(reply: ListingReply): seq<string> {
    if reply.Listing? && reply.status == 200 && reply.data.Some? && FreeIds(reply.data.value).Some? then
      [AUTO_ROUTER] + RemoveFirst(FreeIds(reply.data.value).value, AUTO_ROUTER)
    else
      FALLBACK
  }

  /** `fetch_free_models`, as the source builds the list: filter, then
      remove-and-insert or insert the auto-router at index 0. */
  method FetchFreeModels(reply: ListingReply) returns (models: seq<string>)
    ensures models == CatalogueOf(reply)
  {
    if reply.Unreachable? || reply.status != 200 || reply.data.None? {
      return FALLBACK;
    }
    var data := reply.data.value;
    var free: seq<string> := [];
    for i := 0 to |data|
      invariant FreeIds(data[..i]) == Some(free)
    {
      FreeIdsExtend(data, i);
      var m := data[i];
      if IsFree(m) {
        if m.id.None? {
          FreeIdsNone(data, i + 1);
          return FALLBACK;
        }
        free := free + [m.id.value];
      }
    }
    assert data[..|data|] == data;
    if AUTO_ROUTER !in free {
      models := [AUTO_ROUTER] + free;
    } else {
      free := RemoveFirst(free, AUTO_ROUTER);
      models := [AUTO_ROUTER] + free;
    }
  }

  /** The catalogue is never empty and always starts with the auto-router; on
      success it is the auto-router followed by the free ids in listing order
      with the auto-router's first occurrence taken out, and it holds exactly
      the free ids plus the auto-router. */
  lemma CatalogueShape(reply: ListingReply)
    ensures |CatalogueOf(reply)| >= 1 && CatalogueOf(reply)[0] == AUTO_ROUTER
    ensures !(reply.Listing? && reply.status == 200 && reply.data.Some?) ==> CatalogueOf(reply) == FALLBACK
    ensures reply.Listing? && reply.status == 200 && reply.data.Some? && FreeIds(reply.data.value).None? ==>
      CatalogueOf(reply) == FALLBACK
    ensures reply.Listing? && reply.status == 200 && reply.data.Some? && FreeIds(reply.data.value).Some? ==>
      var ids := FreeIds(reply.data.value).value;
      && CatalogueOf(reply)[1..] == RemoveFirst(ids, AUTO_ROUTER)
      && multiset(CatalogueOf(reply)) == multiset(ids) + (if AUTO_ROUTER in ids then multiset{} else multiset{AUTO_ROUTER})
  {
    if reply.Listing? && reply.status == 200 && reply.data.Some? && FreeIds(reply.data.value).Some? {
      var ids := FreeIds(reply.data.value).value;
      var c := CatalogueOf(reply);
      assert c == [AUTO_ROUTER] + RemoveFirst(ids, AUTO_ROUTER);
      RemoveFirstMultiset(ids, AUTO_ROUTER);
      assert multiset(c) == multiset{AUTO_ROUTER} + multiset(RemoveFirst(ids, AUTO_ROUTER));
      if AUTO_ROUTER in ids {
        assert multiset(ids)[AUTO_ROUTER] > 0;
      }
    }
  }

  /** When the listing names the auto-router at most once, the catalogue names
      it exactly once, at index 0. */
  lemma AutoRouterExactlyOnce(reply: ListingReply)
    requires reply.Listing? && reply.status == 200 && reply.data.Some? && FreeIds(reply.data.value).Some?
    requires multiset(FreeIds(reply.data.value).value)[AUTO_ROUTER] <= 1
    ensures multiset(CatalogueOf(reply))[AUTO_ROUTER] == 1
    ensures forall k :: 0 < k < |CatalogueOf(reply)| ==> CatalogueOf(reply)[k] != AUTO_ROUTER
  {
    var ids := FreeIds(reply.data.value).value;
    var rest := RemoveFirst(ids, AUTO_ROUTER);
    var c := CatalogueOf(reply);
    RemoveFirstMultiset(ids, AUTO_ROUTER);
    assert multiset(rest)[AUTO_ROUTER] == 0;
    assert c == [AUTO_ROUTER] + rest;
    forall k | 0 < k < |c| ensures c[k] != AUTO_ROUTER {
      assert c[k] == rest[k - 1];
      assert rest[k - 1] in multiset(rest);
    }
  }

  /** A listing that names the auto-router twice, both times as a free
      model, keeps the second copy: only the first occurrence is removed. */
  lemma DuplicateAutoRouterSurvives(e: ListedModel)
    requires IsFree(e) && e.id == Some(AUTO_ROUTER)
    ensures CatalogueOf(Listing(200, Some([e, e]))) == [AUTO_ROUTER, AUTO_ROUTER]
  {
    FreeIdsConcat([e], [e]);
    assert [e] + [e] == [e, e];
  }
}
