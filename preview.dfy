/**
 * The headless preview customisations of the theme
 * (wp-content/themes/twentynineteen/inc/preview.php): the preview link the
 * admin shows, and the `__/v1/post/preview` REST endpoint that returns a
 * post's latest revision with its template and excerpt.
 *
 * WordPress lookups (revisions, the parent post, the REST controller's
 * serialisation, the page template and the stored excerpt) are inputs.
 */
module Preview {
  import opened Wrappers
  import Decimal

  const ProductionBase: string := "https://[PLEASE_UPDATE_LINK]"
  const LocalBase: string := "http://localhost:3000/"

  /**
   * `set_headless_preview_link`. `env` is `$_SERVER['ENV']` (None when
   * unset), `postId` is `get_the_ID()` and `nonce` is the `wp_rest` nonce;
   * the link WordPress proposes is ignored.
   */
  function SetHeadlessPreviewLink(env: Option<string>, postId: int, nonce: string): (link: string)
    ensures |link| > |nonce| && link[|link| - |nonce| - 1] == '/' && link[|link| - |nonce|..] == nonce
  {
    if env == Some("production") then
      ProductionBase + "_preview/" + Decimal.IntToString(postId) + "/" + nonce
    else if env == Some("development") then
      ProductionBase + "_preview/" + Decimal.IntToString(postId) + "/" + nonce
    else
      LocalBase + "_preview/" + Decimal.IntToString(postId) + "/" + nonce
  }

  predicate IsDeployed(env: Option<string>) {
    env == Some("production") || env == Some("development")
  }

  /** Production and development give the same link, pointing at the deployed client. */
  lemma PreviewLinkDeployed(postId: int, nonce: string)
    ensures SetHeadlessPreviewLink(Some("production"), postId, nonce)
         == SetHeadlessPreviewLink(Some("development"), postId, nonce)
         == "https://[PLEASE_UPDATE_LINK]_preview/" + Decimal.IntToString(postId) + "/" + nonce
  {
    assert ProductionBase + "_preview/" == "https://[PLEASE_UPDATE_LINK]_preview/";
  }

  /** Any other value of ENV, or none, gives the local development client. */
  lemma PreviewLinkLocal(env: Option<string>, postId: int, nonce: string)
    requires !IsDeployed(env)
    ensures SetHeadlessPreviewLink(env, postId, nonce)
         == "http://localhost:3000/_preview/" + Decimal.IntToString(postId) + "/" + nonce
  {
    assert LocalBase + "_preview/" == "http://localhost:3000/_preview/";
  }

  /** The link is an https link exactly when ENV is production or development. */
  lemma PreviewLinkSecureIff(env: Option<string>, postId: int, nonce: string)
    ensures var link := SetHeadlessPreviewLink(env, postId, nonce);
            (|link| >= 8 && link[..8] == "https://") <==> IsDeployed(env)
  {
    var link := SetHeadlessPreviewLink(env, postId, nonce);
    if IsDeployed(env) {
      assert link[..8] == ProductionBase[..8];
    } else {
      assert link[..8] == LocalBase[..8];
      assert link[4] == ':';
    }
  }

  /** With the same ENV and nonce, the link determines the post. */
  lemma PreviewLinkIdentifiesPost(env: Option<string>, a: int, b: int, nonce: string)
    requires SetHeadlessPreviewLink(env, a, nonce) == SetHeadlessPreviewLink(env, b, nonce)
    ensures a == b
  {
    var base := if IsDeployed(env) then ProductionBase + "_preview/" else LocalBase + "_preview/";
    var da, db := Decimal.IntToString(a), Decimal.IntToString(b);
    var la, lb := SetHeadlessPreviewLink(env, a, nonce), SetHeadlessPreviewLink(env, b, nonce);
    assert la == base + da + ("/" + nonce);
    assert lb == base + db + ("/" + nonce);
    assert |da| == |db|;
    assert da == la[|base|..|base| + |da|];
    assert db == lb[|base|..|base| + |db|];
    Decimal.IntToStringInjective(a, b);
  }

  /** `get_excerpt_by_id`: the stored excerpt wrapped in a paragraph. */
  function GetExcerptById(excerptOf: string -> string, postId: string): (r: string)
    ensures |r| == |excerptOf(postId)| + 7
    ensures r[..3] == "<p>" && r[|r| - 4..] == "</p>"
    ensures r[3..|r| - 4] == excerptOf(postId)
  {
    "<p>" + excerptOf(postId) + "</p>"
  }

  const Autosave: string := "-autosave-v1"

  predicate StartsWithAutosave(s: string) {
    |Autosave| <= |s| && s[..|Autosave|] == Autosave
  }

  predicate ContainsAutosave(s: string) {
    exists i :: 0 <= i <= |s| && StartsWithAutosave(s[i..])
  }

  /**
   * `str_replace('-autosave-v1', '', $s)`: one pass from left to right that
   * drops each occurrence; the text left behind is not searched again.
   */
  function StripAutosave(s: string): (r: string)
    ensures |r| <= |s|
    ensures forall i :: 0 <= i < |r| ==> r[i] in s
    decreases |s|
  {
    if StartsWithAutosave(s) then StripAutosave(s[|Autosave|..])
    else if s == [] then []
    else [s[0]] + StripAutosave(s[1..])
  }

  lemma ContainsAutosaveTail(s: string)
    requires s != [] && !StartsWithAutosave(s)
    ensures ContainsAutosave(s) <==> ContainsAutosave(s[1..])
  {
    if ContainsAutosave(s) {
      var i :| 0 <= i <= |s| && StartsWithAutosave(s[i..]);
      assert i > 0 && s[i..] == s[1..][i - 1..];
    }
    if ContainsAutosave(s[1..]) {
      var i :| 0 <= i <= |s[1..]| && StartsWithAutosave(s[1..][i..]);
      assert s[1..][i..] == s[i + 1..];
    }
  }

  /** The result is never longer, is the input itself when the marker is absent, and is shorter when it is present. */
  lemma {:induction false} StripChangesIffContains(s: string)
    ensures |StripAutosave(s)| <= |s|
    ensures !ContainsAutosave(s) ==> StripAutosave(s) == s
    ensures ContainsAutosave(s) ==> |StripAutosave(s)| < |s|
    decreases |s|
  {
    if StartsWithAutosave(s) {
      assert s[0..] == s;
      StripChangesIffContains(s[|Autosave|..]);
    } else if s != [] {
      ContainsAutosaveTail(s);
      StripChangesIffContains(s[1..]);
      assert s == [s[0]] + s[1..];
    }
  }

  /** An autosave slug `<parent>-autosave-v1` yields `<parent>` when the parent part has no '-'. */
  lemma {:induction false} StripAutosaveSlug(parent: string)
    requires forall i :: 0 <= i < |parent| ==> parent[i] != '-'
    ensures StripAutosave(parent + Autosave) == parent
    decreases |parent|
  {
    var s := parent + Autosave;
    if parent == [] {
      assert s == Autosave && StartsWithAutosave(s);
      assert s[|Autosave|..] == [];
    } else {
      assert !StartsWithAutosave(s) by { assert s[..|Autosave|][0] == parent[0]; }
      assert s[1..] == parent[1..] + Autosave;
      StripAutosaveSlug(parent[1..]);
      assert parent == [parent[0]] + parent[1..];
    }
  }

  /** The autosave slug of a post gives back that post's id. */
  lemma StripAutosaveOfPostSlug(postId: nat)
    ensures StripAutosave(Decimal.IntToString(postId) + "-autosave-v1") == Decimal.IntToString(postId)
  {
    var d := Decimal.IntToString(postId);
    forall i | 0 <= i < |d| ensures d[i] != '-' {
      Decimal.IntToStringChars(postId, i);
    }
    StripAutosaveSlug(d);
  }

  /** A prefix at none of whose positions the marker starts is copied. */
  lemma {:induction false} StripCopiesPrefix(p: string, t: string)
    requires forall i :: 0 <= i < |p| ==> !StartsWithAutosave((p + t)[i..])
    ensures StripAutosave(p + t) == p + StripAutosave(t)
    decreases |p|
  {
    if p != [] {
      var s := p + t;
      assert !StartsWithAutosave(s[0..]);
      assert s[0..] == s;
      assert s[1..] == p[1..] + t;
      forall i | 0 <= i < |p[1..]| ensures !StartsWithAutosave((p[1..] + t)[i..]) {
        assert (p[1..] + t)[i..] == s[i + 1..];
      }
      StripCopiesPrefix(p[1..], t);
      assert StripAutosave(s[1..]) == p[1..] + StripAutosave(t);
      assert StripAutosave(s) == [s[0]] + StripAutosave(s[1..]);
      assert s[0] == p[0];
      assert [p[0]] + (p[1..] + StripAutosave(t)) == p + StripAutosave(t);
    } else {
      assert p + t == t && p + StripAutosave(t) == StripAutosave(t);
    }
  }

  /**
   * The replacement is a single pass: in `-autosave-autosave-v1-v1` removing
   * the inner occurrence leaves `-autosave-v1`, which is kept.
   */
  lemma StripIsSinglePass(p: string, t: string)
    requires p == "-autosave" && t == Autosave + "-v1"
    ensures StripAutosave(p + t) == p + "-v1"
  {
    var s := p + t;
    forall i | 0 <= i < |p| ensures !StartsWithAutosave(s[i..]) {
      if i == 0 {
        assert s[i..][..|Autosave|][10] != Autosave[10];
      } else {
        assert s[i..][..|Autosave|][0] != Autosave[0];
      }
    }
    StripCopiesPrefix(p, t);
    assert StartsWithAutosave(t) by { assert t[..|Autosave|] == Autosave; }
    assert t[|Autosave|..] == "-v1";
    StripChangesIffContains("-v1");
  }

  /** The serialised post: field name to value. */
  type PostData = map<string, string>

  datatype RestError = RestError(code: string, message: string, status: int)

  function NotFound(postId: string): RestError {
    RestError("rest_get_post_preview", "Post " + postId + " does not exist", 404)
  }

  /**
   * The post the preview serialises: the first (latest) revision if there
   * is one, otherwise the parent post if it exists, otherwise a 404.
   */
  function SelectPreviewPost<P>(revisions: seq<P>, parent: Option<P>, postId: string): (r: Result<P, RestError>)
    ensures r.Failure? <==> revisions == [] && parent.None?
    ensures r.Failure? ==> r.error == NotFound(postId) && r.error.status == 404
    ensures r.Success? && revisions != [] ==> r.value == revisions[0]
    ensures r.Success? && revisions == [] ==> parent == Some(r.value)
  {
    if revisions != [] then Success(revisions[0])
    else if parent.Some? then Success(parent.value)
    else Failure(NotFound(postId))
  }

  /** The identifier the template and excerpt are looked up by: the slug without `-autosave-v1`. */
  function ParentId(data: PostData): (id: string)
    ensures "slug" !in data ==> id == ""
    ensures "slug" in data ==> |id| <= |data["slug"]|
  {
    StripAutosave(if "slug" in data then data["slug"] else "")
  }

  /**
   * `rest_get_post_preview`. `prepare` stands for the posts controller's
   * `prepare_item_for_response` followed by `prepare_response_for_collection`.
   */
  method RestGetPostPreview<P>(postId: string, revisions: seq<P>, parent: Option<P>,
                               prepare: P -> PostData,
                               templateOf: string -> string, excerptOf: string -> string)
    returns (r: Result<PostData, RestError>)
    ensures r.Failure? <==> revisions == [] && parent.None?
    ensures r.Failure? ==> r.error == NotFound(postId)
    ensures r.Success? ==>
              var data := prepare(SelectPreviewPost(revisions, parent, postId).value);
              && r.value.Keys == data.Keys + {"template", "excerpt"}
              && r.value["template"] == templateOf(ParentId(data))
              && r.value["excerpt"] == GetExcerptById(excerptOf, ParentId(data))
              && forall k :: k in data && k != "template" && k != "excerpt" ==> r.value[k] == data[k]
  {
    var data: PostData;
    if revisions != [] {
      var lastRevision := revisions[0];
      data := prepare(lastRevision);
    } else if parent.Some? {
      data := prepare(parent.value);
    } else {
      return Failure(NotFound(postId));
    }
    var response := data;
    var parentId := StripAutosave(if "slug" in response then response["slug"] else "");
    response := response["template" := templateOf(parentId)];
    response := response["excerpt" := GetExcerptById(excerptOf, parentId)];
    r := Success(response);
  }
}
