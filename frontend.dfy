/**
 * The public-facing part of the wp-rest-yoast-meta plugin
 * (wp-content/plugins/wp-rest-yoast-meta/frontend/class-frontend.php):
 * a per-post cache of the meta tags and JSON-LD blocks that Yoast SEO
 * renders, the fields it adds to REST responses, and the redirect list.
 *
 * The WordPress transient store is a map from transient key to stored
 * record, without expiry. Yoast's head rendering, `html_entity_decode` and
 * the HTML parser are functions given to the object when it is created;
 * the ampersand escape between them is modelled exactly (module Ampersand).
 * Whether the wp-rest-cache plugin is active is asked of WordPress on every
 * call, so every cache operation takes it as a parameter.
 */
module YoastMeta {
  import opened Wrappers
  import Decimal
  import Ampersand

  /** The attributes of one `<meta>` tag, name to value. */
  type Meta = map<string, string>

  /** One decoded JSON-LD block, opaque to this model. */
  type JsonLd = string

  /** The array `['meta' => ..., 'json_ld' => ...]`; an unset or null field is None. */
  datatype YoastData = YoastData(meta: Option<seq<Meta>>, jsonLd: Option<seq<JsonLd>>)

  datatype Post = Post(id: int)

  /** A Yoast SEO Premium redirect: origin, target and HTTP status type. */
  datatype Redirect = Redirect(origin: string, target: string, redirectType: int)

  /** The transients: key to stored record. A missing key reads as PHP's `false`. */
  type Store = map<string, YoastData>

  const KeyPrefix: string := "yoast_meta_"

  /** The transient key of a post, `'yoast_meta_' . $post_ID`, used by every cache operation. */
  function CacheKey(postId: int): (key: string)
    ensures |key| > |KeyPrefix| && key[..|KeyPrefix|] == KeyPrefix
  {
    KeyPrefix + Decimal.IntToString(postId)
  }

  /** Different posts never share a transient. */
  lemma CacheKeyInjective(a: int, b: int)
    ensures CacheKey(a) == CacheKey(b) ==> a == b
  {
    if CacheKey(a) == CacheKey(b) {
      assert CacheKey(a)[|KeyPrefix|..] == Decimal.IntToString(a);
      assert CacheKey(b)[|KeyPrefix|..] == Decimal.IntToString(b);
      Decimal.IntToStringInjective(a, b);
    }
  }

  /** `should_cache`: the plugin uses its own cache unless wp-rest-cache is active. */
  function ShouldCache(restCacheActive: bool): bool {
    !restCacheActive
  }

  /** `get_cache`: None is PHP's `false`. */
  function GetCache(store: Store, restCacheActive: bool, postId: int): (r: Option<YoastData>)
    ensures restCacheActive ==> r.None?
    ensures !restCacheActive ==> (r.Some? <==> CacheKey(postId) in store)
    ensures r.Some? ==> CacheKey(postId) in store && r.value == store[CacheKey(postId)]
  {
    if !ShouldCache(restCacheActive) then None
    else if CacheKey(postId) in store then Some(store[CacheKey(postId)])
    else None
  }

  /** A cached value is used only if it is not false and has both fields set. */
  predicate IsHit(cached: Option<YoastData>) {
    cached.Some? && cached.value.meta.Some? && cached.value.jsonLd.Some?
  }

  /** A recomputed record is written only when its `meta` is a non-empty array. */
  predicate Storable(data: YoastData) {
    data.meta.Some? && |data.meta.value| > 0
  }

  /**
   * `get_yoast_data`: the returned record and the store afterwards, where
   * `generated` is what Yoast and the parser produce for the post.
   */
  function FetchYoastData(store: Store, restCacheActive: bool, postId: int, generated: YoastData)
    : (res: (YoastData, Store))
    ensures restCacheActive ==> res.0 == generated
    ensures IsHit(GetCache(store, restCacheActive, postId)) ==> res == (store[CacheKey(postId)], store)
    ensures !IsHit(GetCache(store, restCacheActive, postId)) ==> res.0 == generated
    ensures IsHit(GetCache(store, restCacheActive, postId))
            || res.1 == if Storable(generated) then store[CacheKey(postId) := generated] else store
  {
    var cached := GetCache(store, restCacheActive, postId);
    if IsHit(cached) then (cached.value, store)
    else if Storable(generated) then (generated, store[CacheKey(postId) := generated])
    else (generated, store)
  }

  /** `update_yoast_meta`: the post's transient is deleted only while caching is on. */
  function AfterUpdate(store: Store, restCacheActive: bool, postId: int): (s: Store)
    ensures restCacheActive ==> s == store
    ensures !restCacheActive ==> CacheKey(postId) !in s && s == store - {CacheKey(postId)}
  {
    if ShouldCache(restCacheActive) then store - {CacheKey(postId)} else store
  }

  /** `delete_yoast_meta`: the post's transient is deleted whatever the plugin state. */
  function AfterDelete(store: Store, postId: int): (s: Store)
    ensures CacheKey(postId) !in s
    ensures forall k :: k in s <==> k in store && k != CacheKey(postId)
    ensures forall k :: k in s ==> s[k] == store[k]
  {
    store - {CacheKey(postId)}
  }

  /** Two stores agree on the transient of one post. */
  predicate SameEntry(s: Store, t: Store, postId: int) {
    (CacheKey(postId) in s <==> CacheKey(postId) in t)
    && (CacheKey(postId) in s ==> s[CacheKey(postId)] == t[CacheKey(postId)])
  }

  /** While wp-rest-cache is active the store is never read, so the data is always recomputed. */
  lemma FetchBypassedByRestCache(store: Store, postId: int, generated: YoastData)
    ensures FetchYoastData(store, true, postId, generated).0 == generated
    ensures FetchYoastData(store, true, postId, generated).1 ==
              if Storable(generated) then store[CacheKey(postId) := generated] else store
  {
  }

  /** On a hit the stored record is returned as it is and nothing is written. */
  lemma FetchHit(store: Store, postId: int, generated: YoastData)
    requires CacheKey(postId) in store
    requires store[CacheKey(postId)].meta.Some? && store[CacheKey(postId)].jsonLd.Some?
    ensures FetchYoastData(store, false, postId, generated) == (store[CacheKey(postId)], store)
  {
  }

  /** A stored record that lacks `meta` or `json_ld` is no hit: the data is recomputed. */
  lemma FetchIncompleteRecordRecomputes(store: Store, postId: int, generated: YoastData)
    requires CacheKey(postId) in store
    requires store[CacheKey(postId)].meta.None? || store[CacheKey(postId)].jsonLd.None?
    ensures FetchYoastData(store, false, postId, generated).0 == generated
  {
  }

  /** Fetching for one post leaves every other post's transient as it was. */
  lemma FetchLeavesOtherPosts(store: Store, restCacheActive: bool, postId: int, generated: YoastData, other: int)
    requires other != postId
    ensures SameEntry(FetchYoastData(store, restCacheActive, postId, generated).1, store, other)
  {
    CacheKeyInjective(postId, other);
  }

  /**
   * Once a complete, non-empty record has been fetched with caching on,
   * the next fetch returns the same record without writing.
   */
  lemma FetchThenHit(store: Store, postId: int, generated: YoastData, regenerated: YoastData)
    requires Storable(generated) && generated.jsonLd.Some?
    ensures var (data, store') := FetchYoastData(store, false, postId, generated);
            FetchYoastData(store', false, postId, regenerated) == (data, store')
  {
  }

  /** After a delete, the next fetch for that post recomputes. */
  lemma DeleteThenFetchRecomputes(store: Store, restCacheActive: bool, postId: int, generated: YoastData)
    ensures FetchYoastData(AfterDelete(store, postId), restCacheActive, postId, generated).0 == generated
  {
  }

  /** Update and delete remove at most the post's own transient. */
  lemma UpdateAndDeleteLeaveOtherPosts(store: Store, restCacheActive: bool, postId: int, other: int)
    requires other != postId
    ensures SameEntry(AfterUpdate(store, restCacheActive, postId), store, other)
    ensures SameEntry(AfterDelete(store, postId), store, other)
  {
    CacheKeyInjective(postId, other);
  }

  /** A value in a REST response's `data` array. */
  datatype ResponseValue = Null | MetaList(seq<Meta>) | JsonLdList(seq<JsonLd>) | Text(string)

  function MetaValue(d: YoastData): ResponseValue {
    if d.meta.Some? then MetaList(d.meta.value) else Null
  }

  function JsonLdValue(d: YoastData): ResponseValue {
    if d.jsonLd.Some? then JsonLdList(d.jsonLd.value) else Null
  }

  /** The two fields `rest_add_yoast` sets; the filters on them are the identity here. */
  function WithYoastFields(fields: map<string, ResponseValue>, d: YoastData): (r: map<string, ResponseValue>)
    ensures r.Keys == fields.Keys + {"yoast_meta", "yoast_json_ld"}
    ensures r["yoast_meta"] == MetaValue(d) && r["yoast_json_ld"] == JsonLdValue(d)
    ensures forall k :: k in fields && k != "yoast_meta" && k != "yoast_json_ld" ==> r[k] == fields[k]
  {
    fields["yoast_meta" := MetaValue(d)]["yoast_json_ld" := JsonLdValue(d)]
  }

  /** One line of the redirects endpoint, `sprintf('/%s/ /%s/ %d', origin, target, type)`. */
  function FormatRedirect(r: Redirect): (line: string)
    ensures |line| > |r.origin| + 4 && line[..|r.origin| + 4] == "/" + r.origin + "/ /"
    ensures var d := Decimal.IntToString(r.redirectType);
            |line| > |d| && line[|line| - |d| - 1] == ' ' && line[|line| - |d|..] == d
  {
    "/" + r.origin + "/ /" + r.target + "/ " + Decimal.IntToString(r.redirectType)
  }

  /** The text after the last space of `s` (all of `s` if it has none). */
  function AfterLastSpace(s: string): string {
    if s == [] then []
    else if s[|s| - 1] == ' ' then []
    else AfterLastSpace(s[..|s| - 1]) + [s[|s| - 1]]
  }

  lemma {:induction false} AfterLastSpaceOf(p: string, d: string)
    requires forall i :: 0 <= i < |d| ==> d[i] != ' '
    ensures AfterLastSpace(p + " " + d) == d
    decreases |d|
  {
    var s := p + " " + d;
    if d != [] {
      assert s[..|s| - 1] == p + " " + d[..|d| - 1];
      AfterLastSpaceOf(p, d[..|d| - 1]);
      assert d == d[..|d| - 1] + [d[|d| - 1]];
    } else {
      assert s[|s| - 1] == ' ';
    }
  }

  /** The redirect type can be read back from the end of its line. */
  lemma RedirectTypeRecoverable(r: Redirect)
    ensures var tail := AfterLastSpace(FormatRedirect(r));
            tail == Decimal.IntToString(r.redirectType) && Decimal.ParseInt(tail) == r.redirectType
  {
    var d := Decimal.IntToString(r.redirectType);
    forall i | 0 <= i < |d| ensures d[i] != ' ' {
      Decimal.IntToStringChars(r.redirectType, i);
    }
    assert FormatRedirect(r) == ("/" + r.origin + "/ /" + r.target + "/") + " " + d;
    AfterLastSpaceOf("/" + r.origin + "/ /" + r.target + "/", d);
    Decimal.IntToStringRoundTrip(r.redirectType);
  }

  /** The `WP_REST_Response` whose `data` array `rest_add_yoast` extends in place. */
  class RestResponse {
    var data: map<string, ResponseValue>

    constructor (data: map<string, ResponseValue>)
      ensures this.data == data
    {
      this.data := data;
    }
  }

  class Frontend {
    /** The transients of the site. */
    var store: Store
    /** `$this->post`, the post being processed. */
    var post: Option<Post>
    /** The head markup Yoast SEO renders for a post. */
    const render: Post -> string
    /** PHP's `html_entity_decode`. */
    const entityDecode: string -> string
    /** `parse`: the markup to the `meta` and `json_ld` arrays. */
    const parse: string -> YoastData

    constructor (transients: Store, render: Post -> string, entityDecode: string -> string,
                 parse: string -> YoastData)
      ensures store == transients && post == None
      ensures this.render == render && this.entityDecode == entityDecode && this.parse == parse
    {
      store := transients;
      post := None;
      this.render := render;
      this.entityDecode := entityDecode;
      this.parse := parse;
    }

    /** What a recompute yields for a post (class-frontend.php:208-231). */
    function Generate(p: Post): YoastData {
      parse(Ampersand.Escape(entityDecode(render(p))))
    }

    method GetYoastData(p: Post, restCacheActive: bool) returns (data: YoastData)
      modifies this
      ensures post == Some(p)
      ensures (data, store) == FetchYoastData(old(store), restCacheActive, p.id, Generate(p))
    {
      post := Some(p);
      var cached := GetCache(store, restCacheActive, p.id);
      if !IsHit(cached) {
        var html := render(p);
        html := entityDecode(html);
        html := Ampersand.Escape(html);
        data := parse(html);
        if data.meta.Some? && |data.meta.value| > 0 {
          store := store[CacheKey(p.id) := data];
        }
      } else {
        data := cached.value;
      }
    }

    method UpdateYoastMeta(postId: int, p: Post, restCacheActive: bool)
      modifies this
      ensures store == AfterUpdate(old(store), restCacheActive, postId)
      ensures post == old(post)
    {
      if ShouldCache(restCacheActive) {
        store := store - {CacheKey(postId)};
      }
    }

    method DeleteYoastMeta(postId: int)
      modifies this
      ensures store == AfterDelete(old(store), postId)
      ensures post == old(post)
    {
      store := store - {CacheKey(postId)};
    }

    method RestAddYoast(response: RestResponse, p: Post, restCacheActive: bool) returns (r: RestResponse)
      modifies this, response
      ensures r == response
      ensures post == Some(p)
      ensures var (data, store') := FetchYoastData(old(store), restCacheActive, p.id, Generate(p));
              store == store' && response.data == WithYoastFields(old(response.data), data)
    {
      var yoastData := GetYoastData(p, restCacheActive);
      response.data := response.data["yoast_meta" := MetaValue(yoastData)];
      response.data := response.data["yoast_json_ld" := JsonLdValue(yoastData)];
      r := response;
    }

    /** `return_redirects`: one line per redirect, in the manager's order. */
    method ReturnRedirects(redirects: seq<Redirect>) returns (data: seq<string>)
      ensures |data| == |redirects|
      ensures forall i :: 0 <= i < |redirects| ==> data[i] == FormatRedirect(redirects[i])
    {
      data := [];
      for i := 0 to |redirects|
        invariant |data| == i
        invariant forall k :: 0 <= k < i ==> data[k] == FormatRedirect(redirects[k])
      {
        data := data + [FormatRedirect(redirects[i])];
      }
    }
  }
}
