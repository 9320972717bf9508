# Headless WordPress glue: server variables, Yoast meta cache, previews

A Dafny model of the three pieces of logic in this headless WordPress setup that do not depend on WordPress internals:

- **`getVar`** (helpers.php) reads a server variable. It first looks up the exact key in `$_SERVER`. If the key is missing, it falls back on the first entry whose key starts with `REDIRECT_` and ends with the requested key; Apache adds that prefix when a request is rewritten. `$_SERVER` is an ordered sequence of `(key, value)` entries (ServerVars). The lookup is a function, so it cannot change the map.
- **The Yoast meta plugin frontend** (class-frontend.php, module YoastMeta). It caches, per post, the `<meta>` attributes and JSON-LD blocks that Yoast SEO renders:
  - The class `Frontend` holds the transient store as a map field and the `$this->post` field.
  - Its methods `GetYoastData`, `UpdateYoastMeta`, `DeleteYoastMeta` and `RestAddYoast` change that state.
  - Each method is specified by a function of the old store: `FetchYoastData`, `AfterUpdate`, `AfterDelete` or `WithYoastFields`. The cache rules are proved as lemmas about those functions.
  - Yoast's head markup, `html_entity_decode` and the HTML parser are functions given to the object when it is created.
  - The ampersand escape applied between decoding and parsing (line 228) is modelled exactly, in module Ampersand.
  - `ReturnRedirects` formats the redirect list in a loop.
- **Preview helpers** (preview.php, module Preview):
  - the preview link chosen by `ENV`;
  - the `<p>` excerpt wrapper;
  - the single-pass removal of `-autosave-v1` from a slug;
  - the REST preview endpoint, which picks the latest revision, else the parent post, else a 404, and overrides `template` and `excerpt`.

Integers are rendered in decimal the way PHP concatenation and `%d` do (module Decimal). The parse back is proved, and it gives that distinct posts have distinct transient keys.

Four details of the code are easy to misread:
- The `getVar` fallback is not limited to `REDIRECT_` + key. It accepts any `REDIRECT_`-prefixed key that ends with the key, and the first such entry in array order wins.
- The `production` and `development` values of `ENV` build the same link, so there are only two preview bases.
- The preview uses the first element of the revision list (`reset`). That element is the latest revision only because WordPress orders revisions newest first.
- The template and excerpt are looked up by the slug with `-autosave-v1` removed, not by a numeric post id. For a slug like `12-revision-v1` that identifier stays as it is.

## Model

| member | source | states |
|---|---|---|
| ServerVars.ExactLookup | helpers.php:6-7 | None exactly when no entry has the key; otherwise the value of an entry with that key |
| ServerVars.FirstRedirect | helpers.php:8-13 | None exactly when no entry passes the redirect test; otherwise the value of the first entry, in array order, that passes it |
| ServerVars.GetVar | helpers.php:4-16 | null exactly when no entry has the key and none passes the `REDIRECT_` test; otherwise the value of an entry that has the key or passes that test |
| ServerVars.RedirectMatchesIff | helpers.php:9-10 | the PHP `substr` tests hold exactly for keys that start with `REDIRECT_` and end with the requested key, and the key is non-empty |
| ServerVars.GetVarExact | helpers.php:6-7 | when the key is present its value is returned, even if `REDIRECT_` entries also match |
| ServerVars.GetVarFallback | helpers.php:8-12 | without an exact entry, the value of the first entry whose key starts with `REDIRECT_` and ends with the key is returned |
| ServerVars.GetVarNull | helpers.php:15 | null exactly when no entry has the key and none passes the redirect test |
| ServerVars.GetVarEmptyKey | helpers.php:10 | for the empty key the fallback never matches, so only an exact `""` entry can be returned |
| ServerVars.GetVarSuffixExample | helpers.php:9-11 | for `ENV`, both `REDIRECT_FOO_ENV` and `REDIRECT_ENV` qualify and the earlier wins; an exact `ENV` beats both |
| Decimal.IntToStringRoundTrip | wp-content/plugins/wp-rest-yoast-meta/frontend/class-frontend.php:384 | the decimal form of an int parses back to that int |
| Decimal.IntToStringInjective | wp-content/plugins/wp-rest-yoast-meta/frontend/class-frontend.php:152 | distinct ids have distinct decimal forms |
| Ampersand.Escape | wp-content/plugins/wp-rest-yoast-meta/frontend/class-frontend.php:228 | the character-by-character rewrite: the output is never shorter than the input, and a string without `&` is returned unchanged |
| Ampersand.EscapeKeepsReferences | wp-content/plugins/wp-rest-yoast-meta/frontend/class-frontend.php:228 | `&amp;` and `&#38;` are left alone |
| Ampersand.EscapeEscapesBareAmpersands | wp-content/plugins/wp-rest-yoast-meta/frontend/class-frontend.php:228 | a lone `&`, the upper-case `&AMP;` and `&#;` are escaped to `&amp;` (the match is case-sensitive and needs one character before `;`) |
| Ampersand.RunSurvivesEscape | wp-content/plugins/wp-rest-yoast-meta/frontend/class-frontend.php:228 | a `[a-z0-9]+;` body is copied unchanged by the escape |
| Ampersand.ReferenceSurvivesEscape | wp-content/plugins/wp-rest-yoast-meta/frontend/class-frontend.php:228 | text that the lookahead `#?[a-z0-9]+;` accepts is still accepted after the escape |
| Ampersand.AmpReferenceEscaped | wp-content/plugins/wp-rest-yoast-meta/frontend/class-frontend.php:228 | the `&amp;` the escape writes begins an accepted reference, so it keeps an escaped tail escaped |
| Ampersand.EscapeBareAmpersand | wp-content/plugins/wp-rest-yoast-meta/frontend/class-frontend.php:228 | an `&` that no reference follows becomes `&amp;`, and the text after it is escaped in turn |
| Ampersand.EscapeOutputIsEscaped | wp-content/plugins/wp-rest-yoast-meta/frontend/class-frontend.php:228 | every `&` in the output begins a reference the lookahead accepts |
| Ampersand.EscapeFixedPoints | wp-content/plugins/wp-rest-yoast-meta/frontend/class-frontend.php:228 | the escape leaves a string unchanged if and only if every `&` in it already begins an accepted reference |
| Ampersand.EscapeIdempotent | wp-content/plugins/wp-rest-yoast-meta/frontend/class-frontend.php:228 | escaping twice is the same as escaping once |
| YoastMeta.ShouldCache | wp-content/plugins/wp-rest-yoast-meta/frontend/class-frontend.php:172-176 | the plugin uses its own cache exactly when wp-rest-cache is not active |
| YoastMeta.IsHit | wp-content/plugins/wp-rest-yoast-meta/frontend/class-frontend.php:206 | a cached value is used only when it is not false and both `meta` and `json_ld` are set |
| YoastMeta.Storable | wp-content/plugins/wp-rest-yoast-meta/frontend/class-frontend.php:233 | a recomputed record may be written only when `meta` is set and non-empty |
| YoastMeta.CacheKey | wp-content/plugins/wp-rest-yoast-meta/frontend/class-frontend.php:190 | the transient key starts with `yoast_meta_` and is followed by the post id |
| YoastMeta.CacheKeyInjective | wp-content/plugins/wp-rest-yoast-meta/frontend/class-frontend.php:234 | different posts never share a transient key |
| YoastMeta.GetCache | wp-content/plugins/wp-rest-yoast-meta/frontend/class-frontend.php:185-193 | false, without reading, while wp-rest-cache is active; otherwise the record stored under the post's key, or false when there is none |
| YoastMeta.FetchYoastData | wp-content/plugins/wp-rest-yoast-meta/frontend/class-frontend.php:202-245 | with wp-rest-cache active the result is always recomputed; a hit returns the stored record and writes nothing; a miss returns the recomputed record, and the store then gains that record under the post's key exactly when its `meta` is non-empty (with caching on or off) and is otherwise unchanged |
| YoastMeta.AfterUpdate | wp-content/plugins/wp-rest-yoast-meta/frontend/class-frontend.php:150-154 | the post's transient is removed only while caching is on; otherwise the store is unchanged |
| YoastMeta.AfterDelete | wp-content/plugins/wp-rest-yoast-meta/frontend/class-frontend.php:163-165 | the post's transient is removed whatever the plugin state, and every other transient is kept |
| YoastMeta.FetchBypassedByRestCache | wp-content/plugins/wp-rest-yoast-meta/frontend/class-frontend.php:185-188 | while wp-rest-cache is active the data is recomputed, and is still written when `meta` is non-empty (the write is not gated) |
| YoastMeta.FetchHit | wp-content/plugins/wp-rest-yoast-meta/frontend/class-frontend.php:205-206 | a stored record with both `meta` and `json_ld` is returned unchanged and the store is untouched |
| YoastMeta.FetchIncompleteRecordRecomputes | wp-content/plugins/wp-rest-yoast-meta/frontend/class-frontend.php:206 | a stored record missing `meta` or `json_ld` is no hit, and the data is recomputed |
| YoastMeta.FetchLeavesOtherPosts | wp-content/plugins/wp-rest-yoast-meta/frontend/class-frontend.php:233-236 | fetching one post never changes another post's transient |
| YoastMeta.FetchThenHit | wp-content/plugins/wp-rest-yoast-meta/frontend/class-frontend.php:202-245 | after a fetch with caching on whose record has non-empty `meta` and a `json_ld`, the next fetch returns the same record and writes nothing |
| YoastMeta.DeleteThenFetchRecomputes | wp-content/plugins/wp-rest-yoast-meta/frontend/class-frontend.php:163-165 | after a delete, the next fetch for that post recomputes |
| YoastMeta.UpdateAndDeleteLeaveOtherPosts | wp-content/plugins/wp-rest-yoast-meta/frontend/class-frontend.php:150-165 | update and delete never touch another post's transient |
| YoastMeta.WithYoastFields | wp-content/plugins/wp-rest-yoast-meta/frontend/class-frontend.php:124-139 | the response gains `yoast_meta` and `yoast_json_ld` from the record, and every other field is kept |
| YoastMeta.FormatRedirect | wp-content/plugins/wp-rest-yoast-meta/frontend/class-frontend.php:384 | a line starts with `/origin/ /` and ends with a space and then the decimal type |
| YoastMeta.RedirectTypeRecoverable | wp-content/plugins/wp-rest-yoast-meta/frontend/class-frontend.php:384 | the text after the last space of a redirect line is the decimal type, and it parses back to the type |
| YoastMeta.Frontend.Generate | wp-content/plugins/wp-rest-yoast-meta/frontend/class-frontend.php:208-231 | a recompute renders Yoast's head, decodes entities, applies the ampersand escape and parses, in that order |
| YoastMeta.Frontend.GetYoastData | wp-content/plugins/wp-rest-yoast-meta/frontend/class-frontend.php:202-245 | sets the current post; the returned record and the new store are those of FetchYoastData on the old store, with the record Yoast, decoding, the escape and the parser produce |
| YoastMeta.Frontend.UpdateYoastMeta | wp-content/plugins/wp-rest-yoast-meta/frontend/class-frontend.php:150-154 | the new store is AfterUpdate of the old one |
| YoastMeta.Frontend.DeleteYoastMeta | wp-content/plugins/wp-rest-yoast-meta/frontend/class-frontend.php:163-165 | the new store is AfterDelete of the old one |
| YoastMeta.Frontend.RestAddYoast | wp-content/plugins/wp-rest-yoast-meta/frontend/class-frontend.php:111-142 | fetches as GetYoastData does, and extends the same response object with the two Yoast fields |
| YoastMeta.Frontend.ReturnRedirects | wp-content/plugins/wp-rest-yoast-meta/frontend/class-frontend.php:378-388 | exactly one line per redirect, in order, each `/origin/ /target/ type` |
| Preview.SetHeadlessPreviewLink | wp-content/themes/twentynineteen/inc/preview.php:8-25 | every preview link ends with `/` and then the nonce |
| Preview.PreviewLinkDeployed | wp-content/themes/twentynineteen/inc/preview.php:9-18 | `production` and `development` give the same link, `https://[PLEASE_UPDATE_LINK]_preview/<id>/<nonce>` |
| Preview.PreviewLinkLocal | wp-content/themes/twentynineteen/inc/preview.php:19-24 | any other ENV value, or none, gives `http://localhost:3000/_preview/<id>/<nonce>` |
| Preview.PreviewLinkSecureIff | wp-content/themes/twentynineteen/inc/preview.php:8-25 | the link is an https link if and only if ENV is `production` or `development` |
| Preview.PreviewLinkIdentifiesPost | wp-content/themes/twentynineteen/inc/preview.php:8-25 | with the same ENV and nonce, the link determines the post id |
| Preview.GetExcerptById | wp-content/themes/twentynineteen/inc/preview.php:55-60 | the result is `<p>`, then exactly the stored excerpt, then `</p>` |
| Preview.StripAutosave | wp-content/themes/twentynineteen/inc/preview.php:104 | the result is never longer than the slug and is made only of characters of the slug |
| Preview.StripChangesIffContains | wp-content/themes/twentynineteen/inc/preview.php:104 | removal never lengthens the slug; it returns the slug itself when `-autosave-v1` does not occur, and something shorter when it does |
| Preview.StripCopiesPrefix | wp-content/themes/twentynineteen/inc/preview.php:104 | text before the first occurrence is copied unchanged |
| Preview.StripAutosaveSlug | wp-content/themes/twentynineteen/inc/preview.php:104 | `<parent>-autosave-v1` becomes `<parent>` when the parent part has no `-` |
| Preview.StripAutosaveOfPostSlug | wp-content/themes/twentynineteen/inc/preview.php:104 | the autosave slug of post `n`, `n-autosave-v1`, gives back `n` |
| Preview.StripIsSinglePass | wp-content/themes/twentynineteen/inc/preview.php:104 | removal is one left-to-right pass: `-autosave-autosave-v1-v1` becomes `-autosave-v1` |
| Preview.SelectPreviewPost | wp-content/themes/twentynineteen/inc/preview.php:84-98 | a 404 error `Post <id> does not exist` exactly when there is no revision and no parent post; otherwise the first revision, or the parent post when there are no revisions |
| Preview.ParentId | wp-content/themes/twentynineteen/inc/preview.php:104 | the empty string when the response has no slug; otherwise the stripped slug, never longer than the slug |
| Preview.RestGetPostPreview | wp-content/themes/twentynineteen/inc/preview.php:72-109 | the same error cases as SelectPreviewPost; on success, the prepared data of the selected post with `template` and `excerpt` overwritten from the slug-derived parent id, and every other field kept |

## Left out

- HTML parsing (`parse`, `parse_using_domdocument`, `parse_using_simplexml`) is DOM, SimpleXML, XPath and `json_decode` library code. It is the `parse` function the object is given, and JSON-LD values are opaque strings.
- `html_entity_decode` and `mb_convert_encoding` are PHP library calls. Decoding is the `entityDecode` function the object is given; `mb_convert_encoding` sits inside `parse`.
- Yoast's head rendering is third-party code and hook dispatch: the `WPSEO_Frontend` and `WPSEO_Twitter` singletons, output buffering, and the `add_action`/`remove_filter`/`reset` calls with the `remove_filters` table. It is the `render` function the object is given.
- The constructor's `plugin_name`, `version` and `remove_filters` fields feed only WordPress and Yoast calls that are not modelled.
- The save and restore of `$wp_query` and postdata (`setup_postdata_and_wp_query`, `wp_reset_postdata`) is global request state driven by hook callbacks.
- Transient expiry (`MONTH_IN_SECONDS`) depends on wall-clock time. The store is a map with no expiry.
- WordPress calls are inputs. The wp-rest-cache flag is a parameter of each cache operation, because `is_plugin_active` is asked on every call. The other inputs are the revision list, the optional parent post, the controller's serialisation (`prepare`), `get_page_template_slug`, `get_post_field`, `get_the_ID` and the nonce.
- The redirect list is the `redirects` parameter of `ReturnRedirects`. It stands for `WPSEO_Redirect_Manager::get_all_redirects` and the `get_origin`, `get_target` and `get_type` getters, which are Yoast SEO Premium code.
- `apply_filters` is the identity.
- `register_rest_route`, `current_user_can`, `remove_action` and `include_once` are left out.
- `wp_get_post_revision($last_revision->ID)` is taken to return that same revision.
- The `is_numeric` check on the preview id depends on PHP's numeric-string grammar. The id reaches the model as a string.
- PHP's loose `==` is modelled as string equality, and an unset ENV as None. Integer keys in `$_SERVER` are out of scope.
- Values in REST responses are strings (preview) or a small `ResponseValue` datatype (Yoast fields). Other PHP value types are not represented.
- A missing `slug` field reads as the empty string, as `str_replace` turns null into `""`.
