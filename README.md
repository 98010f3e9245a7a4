# yii2-social-share: the client-side share widget, in Dafny

This project models `yii.social-share.js`, the jQuery plugin behind the
social-share buttons. The plugin attaches to a container of share buttons.
When a button is clicked, it takes that network's URL template and fills its
`{key}` and `{key-ne}` placeholders with share parameters. The parameters come
from the page's own metadata, overridden by the configured `data` option. The
plugin then deletes leftover placeholders and rebuilds the query string.
Finally it opens a centred 800×500 popup on the result and runs its hooks.

The modules follow the parts of the script:

- `UriEncoding` models `encodeURIComponent` (section 18.2.6.5 of ECMA-262,
  ECMAScript 2015) and its inverse `decodeURIComponent`. The inverse is the
  reference for the round-trip proofs.
- `UrlTemplates` models `generateUrl` and `cleanUrl`. The source's regular
  expressions become deterministic scanners: `ReplaceAll`, `StripTokens` and
  `QueryPairs`. A template can also be read as a sequence of text and
  placeholder pieces. On that reading, substitution is proved to resolve each
  placeholder independently (`Resolve`).
- `ShareParams` models `filterObject` and `getParams`. Page metadata is an
  input record, `PageMeta`.
- `Options` holds `DEFAULTS` and the two-step `$.extend` merge of the
  `Plugin` constructor.
- `Popup` models the popup geometry and the `window.open` feature string.
- `Hooks` models `_hook`: the derived event name, then the callback, then the
  event.
- `Widget` holds the `Element` and `Plugin` classes. An element has a
  registry slot, bound handlers and a log of hook and event firings. A plugin
  has mutable `options`. The module also models `$.fn.yiiSocialShare` over a
  collection of distinct elements, covering attach and string dispatch.
- `JsValues`, `Strings` and `Wrappers` are helpers. `JsValues` covers
  JavaScript values, objects as ordered property lists, and shallow
  `$.extend`. `Strings` covers `indexOf`, `split`, `join`, decimal printing
  and ASCII lower-casing.

Browser effects are inputs and outputs. The inputs are the page metadata, the
available screen size (0 when unknown) and what `window.open` returns. The
outputs are the `window.open` call (URL, window name, features) and the
element's ordered log of callback calls and triggered events.

Some behaviour of the code a reader might not expect:

- The pair scan of `cleanUrl` runs over the whole URL, not just the part
  after `?`. A path that itself contains `k=v` is therefore repeated in the
  rebuilt query (`ExamplePathPair`).
- `socialNetworks` is the only option merged key by key. `data` is taken
  whole from whichever source wins.
- `options.width` and `options.height` are never read. `t.data - width`
  evaluates to NaN, so the popup is always 800×500.
- A button naming a network with no string template throws inside
  `generateUrl` before any window opens. It is not a silent no-op.
- The deletion of placeholders is a single pass, so `{{a}}` leaves `{}`
  (`ExampleNestedBraces`).

## Model

| member | source | states |
|---|---|---|
| `UriEncoding.EncodeUriComponent` | src/assets/js/yii.social-share.js:189 | the encoding is at least as long as its input and holds only unreserved characters and `%` |
| `UriEncoding.EncodedAlphabet` | src/assets/js/yii.social-share.js:189 | no encoded value contains `= & ? { } $ , #` or a space, so it cannot form a placeholder or split a query pair |
| `UriEncoding.DecodeEncode` | src/assets/js/yii.social-share.js:189 | `decodeURIComponent(encodeURIComponent(s)) == s` for every string |
| `JsValues.Put` | src/assets/js/yii.social-share.js:260 | assigning `o[k] = v` makes `k` read `v`, leaves every other key's value unchanged, keeps an existing key in place and appends a new one last |
| `JsValues.ExtendLookup` | src/assets/js/yii.social-share.js:48 | after a shallow `$.extend`, a key has the source's value unless that value is `undefined`, in which case the target's value stays |
| `UrlTemplates.ReplaceAllAbsent` | src/assets/js/yii.social-share.js:188 | a global replace of a token that does not occur changes nothing, so the `indexOf` guards do not change the result |
| `UrlTemplates.GenerateUrl` | src/assets/js/yii.social-share.js:182-200 | the loop over the params, in order, ends in `cleanUrl` of the substituted template; with no params the result is `cleanUrl(url)` |
| `UrlTemplates.SubstituteAssembled` | src/assets/js/yii.social-share.js:185-197 | on a template of text and brace-free placeholders, the substitution loop turns each `{k}` into the encoded value and each `{k-ne}` into the raw value of the first param that names it, and leaves the other placeholders alone |
| `UrlTemplates.GenerateAssembled` | src/assets/js/yii.social-share.js:182-218 | `generateUrl` on such a template is the query rebuild of the resolved text with the unresolved placeholders deleted |
| `UrlTemplates.StripAssembled` | src/assets/js/yii.social-share.js:208 | deleting `{…}` tokens from text and placeholders leaves exactly the text |
| `UrlTemplates.StripNoBrace` | src/assets/js/yii.social-share.js:208 | a string without `{` is unchanged by the token deletion |
| `UrlTemplates.CleanUrlShape` | src/assets/js/yii.social-share.js:207-218 | the result is the token-stripped string up to its first `?`, followed by `?` and the matched pairs joined by `&` when any pair matched, with no `?` otherwise; every pair is a non-empty key, `=`, and a non-empty value free of `= & ?` |
| `UrlTemplates.RebuildQueryShape` | src/assets/js/yii.social-share.js:210-217 | splitting the rebuilt URL on `?` gives the path and the query, and splitting the query on `&` gives back exactly the matched pairs |
| `UrlTemplates.QueryPairsJoin` | src/assets/js/yii.social-share.js:210 | scanning well-formed pairs joined by `&` finds exactly those pairs |
| `UrlTemplates.CleanUrlIdentity` | src/assets/js/yii.social-share.js:207-218 | a URL already of the form path `?` pairs, with a plain path, is a fixed point of `cleanUrl` |
| `UrlTemplates.EncodedRoundTrip` | src/assets/js/yii.social-share.js:182-218 | for a template `P?k={k}` and a non-empty value `v`, the result is `P?k=` followed by `encodeURIComponent(v)`, and decoding that value gives `v` |
| `UrlTemplates.TrailingEmptyPairDropped` | src/assets/js/yii.social-share.js:210-217 | a trailing `&key=` with an empty value is dropped together with its `&` |
| `UrlTemplates.UnfilledPlaceholderDropped` | src/assets/js/yii.social-share.js:182-218 | in `P?a={a}&b={b}` with a param for `a` only, `a` is filled with the encoded value and the `&b=` fragment disappears |
| `UrlTemplates.RawFilled` | src/assets/js/yii.social-share.js:192-195 | `{k-ne}` takes the value unencoded |
| `UrlTemplates.RawValueCut` | src/assets/js/yii.social-share.js:192-214 | a raw value that contains `&` is cut at the `&` by the pair scan |
| `UrlTemplates.PathPairRepeated` | src/assets/js/yii.social-share.js:210-214 | a path that is itself a `k=v` pair is repeated at the head of the rebuilt query |
| `UrlTemplates.ExampleDanglingPair` | src/assets/js/yii.social-share.js:207-218 | `cleanUrl("http://x/?a=1&b=")` is `"http://x/?a=1"` |
| `UrlTemplates.ExampleEncoded` | src/assets/js/yii.social-share.js:185-190 | `http://x/?q={q}` with q = `a b` gives `http://x/?q=a%20b` |
| `UrlTemplates.ExampleUnfilled` | src/assets/js/yii.social-share.js:182-218 | `http://x/?a={a}&b={b}` with only a = `1` gives `http://x/?a=1` |
| `UrlTemplates.ExampleRaw` | src/assets/js/yii.social-share.js:192-195 | `http://x/?q={q-ne}` with q = `a b` gives `http://x/?q=a b` |
| `UrlTemplates.ExampleRawCut` | src/assets/js/yii.social-share.js:192-214 | `{q-ne}` with q = `a&b` gives `http://x/?q=a` |
| `UrlTemplates.ExamplePathPair` | src/assets/js/yii.social-share.js:210-211 | `cleanUrl("http://x/a=b?c=d")` is `"http://x/a=b?http://x/a=b&c=d"` |
| `UrlTemplates.ExampleNestedBraces` | src/assets/js/yii.social-share.js:208 | the single-pass deletion turns `{{a}}` into `{}` |
| `ShareParams.FilterObject` | src/assets/js/yii.social-share.js:108-118 | the loop assigns the truthy properties in order; on an object with distinct keys the result is exactly its truthy properties, in order |
| `ShareParams.TruthyLookup` | src/assets/js/yii.social-share.js:108-118 | after filtering, a key has its value if that value is truthy and is absent otherwise |
| `ShareParams.TruthyIdempotent` | src/assets/js/yii.social-share.js:134 | filtering an already filtered object changes nothing |
| `ShareParams.FilteredDistinct` | src/assets/js/yii.social-share.js:111-115 | on distinct keys the assignments only append, so `filterObject` equals the truthy sub-sequence |
| `ShareParams.GetParams` | src/assets/js/yii.social-share.js:125-135 | returns the filtered merge of the page values and the filtered `data`, with distinct keys |
| `ShareParams.ParamsLookup` | src/assets/js/yii.social-share.js:125-135 | every param is truthy; a param is `data[k]` when truthy, else the page's value when truthy, else absent; extra `data` keys come through |
| `ShareParams.ParamsHasKey` | src/assets/js/yii.social-share.js:125-135 | a param is present exactly when `data` or the page gives it a truthy value |
| `ShareParams.EmptyTitleDropped` | src/assets/js/yii.social-share.js:127 | an empty document title with no `data.title` gives no `title` param |
| `Options.MergeOptions` | src/assets/js/yii.social-share.js:48-49 | the merged options have distinct keys |
| `Options.MergePriority` | src/assets/js/yii.social-share.js:48 | each top-level option is the element's data-attribute value if defined, else the caller's option, else the default; `data` and every key but `socialNetworks` are taken whole |
| `Options.NetworksMerged` | src/assets/js/yii.social-share.js:49 | the merged `socialNetworks` is an object in which each network has the winning source's template if defined, else the default one |
| `Options.TemplateOfMerged` | src/assets/js/yii.social-share.js:49 | right after construction a network's template is the given one, else the default; a network known to neither has none |
| `Options.DefaultTemplates` | src/assets/js/yii.social-share.js:16-21 | with no `socialNetworks` given, facebook, twitter, linkedin and pinterest have their default templates and any other network has none |
| `Popup.Offset` | src/assets/js/yii.social-share.js:148-149 | the offset is the floor of half the room left: `2r <= size - extent < 2r + 2` |
| `Popup.Centred` | src/assets/js/yii.social-share.js:146-149 | the margin right of (below) the popup equals the margin left of (above) it, or is one pixel more |
| `Popup.UnknownScreen` | src/assets/js/yii.social-share.js:148-149 | an available size of 0 falls back to 1024×700 |
| `Popup.NarrowScreen` | src/assets/js/yii.social-share.js:148 | on a 799-pixel screen left is −1: the offset rounds down and goes negative |
| `Popup.StandardScreen` | src/assets/js/yii.social-share.js:146-162 | on 1024×700 the features are exactly `width=800,height=500,left=112,top=100,location=0,menubar=0,toolbar=0,status=0,scrollbars=1,resizable=1` |
| `Popup.FeatureEntries` | src/assets/js/yii.social-share.js:150-162 | splitting the feature string on `,` gives the ten entries |
| `Popup.GeometryReadBack` | src/assets/js/yii.social-share.js:150-162 | reading the feature string back finds each feature's value, and left and top parse back to the computed offsets |
| `Hooks.EventNameOfHook` | src/assets/js/yii.social-share.js:231-236 | `on` + c + rest maps to c lower-cased (A-Z only, see Left out) + rest + `.yiiSocialShare` |
| `Hooks.EventNameOfOther` | src/assets/js/yii.social-share.js:233-236 | a name without the `on` prefix maps to its first character lower-cased (A-Z only, see Left out), the rest, and the namespace |
| `Hooks.EventNameOfEmpty` | src/assets/js/yii.social-share.js:231-236 | `""` and `"on"` map to the bare namespace |
| `Hooks.WidgetEvents` | src/assets/js/yii.social-share.js:231-236 | `onInit`, `onRender` and `onDestroy` trigger `init.`, `render.` and `destroy.yiiSocialShare` |
| `Hooks.HookOfEvent` | src/assets/js/yii.social-share.js:231-236 | for hook names of the form `onX…`, the hook name can be recovered from its event name, so distinct hooks trigger distinct events |
| `Hooks.HookFirings` | src/assets/js/yii.social-share.js:238-248 | a hook always ends by triggering its event; the callback is called, before the event, exactly when the option is a function |
| `Hooks.NonFunctionCallbackIgnored` | src/assets/js/yii.social-share.js:239-241 | a hook option that is not a function only triggers the event |
| `Widget.OffKeeps` | src/assets/js/yii.social-share.js:273-275 | `.off('.yiiSocialShare')` keeps exactly the handlers outside the namespace |
| `Widget.OffAfterBind` | src/assets/js/yii.social-share.js:84 | unbinding the namespace removes the click handlers the widget bound and keeps every other handler, in order |
| `Widget.Plugin.constructor` | src/assets/js/yii.social-share.js:42-51 | the options are the merge of defaults, options and data attributes; one click handler is bound and `onInit` fires |
| `Widget.Plugin.Init` | src/assets/js/yii.social-share.js:56-60 | binds the click handler, then runs the `onInit` hook |
| `Widget.Plugin.BindEvents` | src/assets/js/yii.social-share.js:83-85 | appends the delegated `click.yiiSocialShare` handler |
| `Widget.Plugin.Hook` | src/assets/js/yii.social-share.js:226-249 | appends the hook's firings (the callback if it is a function, then the event) to the element's log |
| `Widget.Plugin.Option` | src/assets/js/yii.social-share.js:258-264 | a truthy value sets key `k` only and returns nothing; a falsy value returns `options[k]` and changes nothing |
| `Widget.Plugin.Destroy` | src/assets/js/yii.social-share.js:271-277 | fires `onDestroy`, then removes the widget's handlers and empties the registry slot |
| `Widget.Plugin.RenderPopup` | src/assets/js/yii.social-share.js:144-174 | opens `generateUrl(template, getParams())` with the fixed feature string; returns whether a window came back, and only then fires `onRender` with it |
| `Widget.Plugin.OnShareButtonClick` | src/assets/js/yii.social-share.js:93-100 | a network without a string template fails with no popup and no firing; otherwise the popup is rendered as `RenderPopup` says |
| `Widget.AttachOne` | src/assets/js/yii.social-share.js:288-291 | an element that has an instance is unchanged; otherwise it gets a fresh instance with the merged options, and `onInit` fires |
| `Widget.Attach` | src/assets/js/yii.social-share.js:286-292 | for a jQuery collection (no element twice), every element ends with an instance; those that had one are unchanged, the others get a fresh one with the merged options and their `onInit` fires; the collection is returned |
| `Widget.MethodName` | src/assets/js/yii.social-share.js:294 | only the first `_` is removed, and a name without `_` is unchanged |
| `Widget.LeadingUnderscore` | src/assets/js/yii.social-share.js:294 | `"_" + name` dispatches to `name`, so private methods need a doubled underscore |
| `Widget.Resolve` | src/assets/js/yii.social-share.js:300 | a name resolves exactly when it is a prototype or inherited function, to the function of that name |
| `Widget.CallOutcome` | src/assets/js/yii.social-share.js:300-303 | a call returns a value exactly when it reaches a followed method that does not throw |
| `Widget.Invoke` | src/assets/js/yii.social-share.js:301 | applies the named method: its result, and its effect on options, handlers, firings and the slot; a followed method that throws a TypeError changes nothing |
| `Widget.CallAt` | src/assets/js/yii.social-share.js:297-305 | calling the `i`th element's instance changes that element alone |
| `Widget.CallMethod` | src/assets/js/yii.social-share.js:293-307 | the string form calls each instance in turn; it throws at the first element without an instance or for a name that is not a function; it returns the last value or the collection (`MethodOutcome`); for a followed method, reached elements show the call's effect and the rest are unchanged; nothing changes when the first element has no instance |
| `Widget.YiiSocialShare` | src/assets/js/yii.social-share.js:283-309 | no options or an object attaches every element (a fresh instance with the merged options, the click handler and `onInit` for those without one; the others unchanged) and returns the collection; a string dispatches `args[0].replace('_', '')` with the remaining arguments, with the outcome and the effects `CallMethod` states; anything else returns `undefined` and changes nothing |
| `Widget.AttachTwice` | src/assets/js/yii.social-share.js:286-292 | attaching twice leaves one instance, built from the first options, and fires `onInit` once |
| `Widget.DestroyThenCall` | src/assets/js/yii.social-share.js:271-305 | after `destroy` the slot is empty and any further string call throws |
| `Widget.DestroyThenAttach` | src/assets/js/yii.social-share.js:271-292 | `destroy` fires `onDestroy` before unbinding; a later attach makes a fresh instance and fires `onInit` again |
| `Widget.SetThenGet` | src/assets/js/yii.social-share.js:258-264 | `option(k, v)` with a truthy `v`, then `option(k)`, returns `v` |
| `Widget.SetOption` | src/assets/js/yii.social-share.js:258-264 | `option(k, v)` through dispatch with a truthy `v` assigns `v` under `k` on the same instance and returns the collection |
| `Widget.GetOption` | src/assets/js/yii.social-share.js:258-264 | `option(k)` through dispatch returns the option's value, or the collection when it is `undefined` |

## Left out

- src/SocialShare.php and src/SocialShareAsset.php are not part of this model. They are server-side widget glue: HTML generation, configuration via framework helpers, JSON encoding and script registration. The model needs only their outputs: the container's `data` attributes and the buttons' network names.
- DOM and browser effects are inputs and outputs, not operations. This covers `window.open`, `screen.*`, `popup.focus()`, `preventDefault`/`returnValue`, jQuery `.on/.off/.trigger`, and reading the meta and link tags. `_cacheElements` only caches jQuery wrappers, so it has no modelled effect.
- Widget.Invoke: the functions the model does not follow are returned as `Unmodelled`, and no effect is stated for them. These are `renderPopup` and `_onShareButtonClick`, which need a DOM event object and can open a window and fire `onRender` (the click path is modelled directly by `Plugin.OnShareButtonClick`). They also include `constructor`, which is `Plugin` itself because the prototype is extended member by member: applied to an instance with an element, it re-merges the options, binds the click handler again and fires `onInit` (lines 42-60). The `Object.prototype` methods are also unfollowed. Property reads see own properties only: `option('toString')` returns `undefined` where the source returns `Object.prototype.toString`, and `_hook('constructor')` triggers only the event where the source finds `Object` and calls it.
- Widget.CallMethod: for an unfollowed method the model stops at the first instance, and states no effect on any element once one was reached. The source goes on calling every instance.
- Widget.YiiSocialShare: the same gap as `CallMethod` for unfollowed methods.
- Hooks.EventName: lower-cases only the ASCII letters A-Z, where `toLowerCase` lower-cases every cased character (`onÉtat` gives `état.yiiSocialShare` in JavaScript). The widget's own hook names are ASCII.
- Hooks.HookFirings: callbacks and the handlers that `.trigger` runs are user code, recorded as log entries that return normally and do not re-enter the widget. A callback that throws ends the hook before the event is triggered. A throwing `onInit` aborts the constructor after the click handler was bound and before any instance is stored; the model does not capture this.
- Regular-expression details are left out. Keys are taken to be plain, so `new RegExp('{'+key+'}')` matches literally, and `$&`/`$1` in a raw `-ne` value are treated as literal text.
- JavaScript for-in order is insertion order. The rule that integer-like keys come first is not modelled.
- `encodeURIComponent` never throws `URIError`. A Dafny `char` is a Unicode scalar value, so lone surrogates cannot occur.
- Numbers are integers, and `Num` carries no NaN, fractions or `-0`. Only the NaN of the popup size matters, and it is written out as the constant 800×500.
- ShareParams.FilterObject: a `data` value that is not an object (a string from a data attribute, for instance) is treated as having no properties. jQuery's `$.each` would enumerate indices or throw.
- Host objects passed as options are treated as having no enumerable properties.
- Arrays are not modelled. A PHP list in the widget's options reaches the script as a JavaScript array. The source then writes `encodeURIComponent(['a', 'b'])` as `a%2Cb`, while the model can only hold such a value as an object, whose string form is `[object Object]`.
- A function-valued param in a `{key-ne}` slot is inserted as its source text. There `String.prototype.replace` would call it as a replacer function.
- The `console.error` branch for a missing element (lines 43-46) cannot be reached from `$.fn.yiiSocialShare`, which always passes an element.
- The jQuery collection given to `$.fn.yiiSocialShare` has distinct elements, as every selector-built collection does.
