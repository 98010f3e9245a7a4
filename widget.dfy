/**
 * The widget's state: the DOM elements it is attached to, the `Plugin`
 * instance stored on each (under `DATA_KEY`), the event handlers it binds
 * there, and what its hooks make observable; and `$.fn.yiiSocialShare`,
 * which attaches instances or calls a method on every instance of a
 * jQuery collection.
 *
 * The browser is an input: the page's meta data, the screen size and what
 * `window.open` returns are given in a `Browser` value, and each
 * `window.open` call is returned as an `OpenCall`.
 */
module Widget {
  import opened Wrappers
  import opened Strings
  import opened JsValues
  import opened UrlTemplates
  import opened ShareParams
  import opened Popup
  import opened Hooks
  import opened Options

  /** `DATA_KEY`, the name the instance is stored under. */
  const DataKey: string := "plugin_" + PluginName

  /** A jQuery event handler bound to an element: the event type, its
      namespaces and the selector of the descendants it is delegated to. */
  datatype Handler = Handler(eventType: string, namespaces: set<string>, selector: string)

  const ShareButtonSelector: string := ".social-share-button"

  /** The handler `_bindEvents` binds: `click.yiiSocialShare`, delegated to
      the share buttons. */
  const ClickHandler: Handler := Handler("click", {PluginName}, ShareButtonSelector)

  /** `.off('.' + namespace)`: the handlers outside the namespace, in order. */
  function Off(handlers: seq<Handler>, namespace: string): (r: seq<Handler>)
    ensures |r| <= |handlers|
  {
    if |handlers| == 0 then []
    else (if namespace in handlers[0].namespaces then [] else [handlers[0]]) + Off(handlers[1..], namespace)
  }

  /** A handler survives `.off` exactly when it was bound and is outside
      the namespace. */
  lemma {:induction false} OffKeeps(handlers: seq<Handler>, namespace: string, h: Handler)
    ensures h in Off(handlers, namespace) <==> h in handlers && namespace !in h.namespaces
  {
    if |handlers| > 0 {
      OffKeeps(handlers[1..], namespace, h);
      assert handlers == [handlers[0]] + handlers[1..];
    }
  }

  lemma {:induction false} OffAppend(a: seq<Handler>, b: seq<Handler>, namespace: string)
    ensures Off(a + b, namespace) == Off(a, namespace) + Off(b, namespace)
  {
    if |a| > 0 {
      var t := a[1..];
      assert (a + b)[1..] == t + b;
      OffAppend(t, b, namespace);
    } else {
      assert a + b == b;
    }
  }

  lemma {:induction false} OffAll(handlers: seq<Handler>, namespace: string)
    requires forall i | 0 <= i < |handlers| :: namespace in handlers[i].namespaces
    ensures Off(handlers, namespace) == []
  {
    if |handlers| > 0 {
      OffAll(handlers[1..], namespace);
    }
  }

  /** Unbinding the namespace removes the handlers the widget bound and
      leaves every other handler in place and in order. */
  lemma OffAfterBind(handlers: seq<Handler>, count: nat)
    ensures Off(handlers + seq(count, _ => ClickHandler), PluginName) == Off(handlers, PluginName)
  {
    var bound := seq(count, _ => ClickHandler);
    OffAppend(handlers, bound, PluginName);
    OffAll(bound, PluginName);
  }

  /** A DOM element the widget can be attached to. */
  class Element {
    /** `$(element).data()`: the element's data attributes as jQuery reads
        them. */
    const data: Fields
    /** `$.data(element, DATA_KEY)`. */
    var instance: Option<Plugin>
    /** The handlers bound to the element, in binding order. */
    var handlers: seq<Handler>
    /** The hook callbacks run and the events triggered on the element. */
    var fired: seq<Firing>

    constructor(data: Fields, handlers: seq<Handler>)
      ensures this.data == data && this.handlers == handlers
      ensures instance == None && fired == []
    {
      this.data := data;
      this.handlers := handlers;
      instance := None;
      fired := [];
    }
  }

  /** What the browser supplies: the page's meta data, `screen.availWidth`
      and `screen.availHeight` (0 when unknown), and what `window.open`
      returns (`null` when the popup is blocked). */
  datatype Browser = Browser(page: PageMeta, availWidth: int, availHeight: int, popup: Value)

  /** A call `window.open(url, name, features)`. */
  datatype OpenCall = OpenCall(url: string, name: string, features: string)

  /** The `window.open` call `renderPopup(e, url)` makes. */
  function PopupCall(options: Fields, url: string, browser: Browser): OpenCall
  {
    OpenCall(CleanUrl(SubstituteAll(url, Params(browser.page, Lookup(options, "data")))),
             "social",
             FeatureString(browser.availWidth, browser.availHeight))
  }

  /** The outcome of a click on a share button: an exception before any
      popup, or the popup call and whether a window opened. */
  datatype Click = Failed | Rendered(shown: bool, call: OpenCall)

  /** A widget instance, `new Plugin(element, options, metadata)`. */
  class Plugin {
    const element: Element
    var options: Fields

    /** The constructor: merges the options, binds the click handler and
        runs the `onInit` hook. */
    constructor(element: Element, options: Value, metadata: Fields)
      modifies element`handlers, element`fired
      ensures this.element == element
      ensures this.options == MergeOptions(options, metadata)
      ensures element.handlers == old(element.handlers) + [ClickHandler]
      ensures element.fired == old(element.fired) + HookFirings(this.options, "onInit", [])
    {
      this.element := element;
      this.options := MergeOptions(options, metadata);
      new;
      Init();
    }

    /** `init()`. */
    method Init()
      modifies element`handlers, element`fired
      ensures element.handlers == old(element.handlers) + [ClickHandler]
      ensures element.fired == old(element.fired) + HookFirings(options, "onInit", [])
    {
      BindEvents();
      Hook("onInit", []);
    }

    /** `_bindEvents()`. */
    method BindEvents()
      modifies element`handlers
      ensures element.handlers == old(element.handlers) + [ClickHandler]
    {
      element.handlers := element.handlers + [ClickHandler];
    }

    /** `_hook(hookName, args...)`: the callback first, when the option is a
        function, then the event. */
    method Hook(hookName: string, args: seq<Value>)
      modifies element`fired
      ensures element.fired == old(element.fired) + HookFirings(options, hookName, args)
    {
      var callback := Lookup(options, hookName);
      if callback.Func? {
        element.fired := element.fired + [Called(hookName, callback.source, args)];
      }
      element.fired := element.fired + [Triggered(EventName(hookName), args)];
    }

    /** `option(key, val)`: a truthy `val` is stored and nothing returned;
        otherwise the current value is returned, so no option can be set to
        a falsy value this way. */
    method Option(key: string, val: Value) returns (r: Value)
      modifies this`options
      ensures Truthy(val) ==> options == Put(old(options), key, val) && r == Undefined
      ensures !Truthy(val) ==> options == old(options) && r == Lookup(options, key)
    {
      if Truthy(val) {
        options := Put(options, key, val);
        r := Undefined;
      } else {
        r := Lookup(options, key);
      }
    }

    /** `destroy()`: the `onDestroy` hook, then the widget's handlers are
        unbound and the instance is removed from the element. */
    method Destroy()
      modifies element`fired, element`handlers, element`instance
      ensures element.fired == old(element.fired) + HookFirings(options, "onDestroy", [])
      ensures element.handlers == Off(old(element.handlers), PluginName)
      ensures element.instance == None
    {
      Hook("onDestroy", []);
      element.handlers := Off(element.handlers, PluginName);
      element.instance := None;
    }

    /** `renderPopup(e, url)`: opens the share window on the expanded
        template and reports whether a window came back; only then does
        `onRender` run, with the window. */
    method RenderPopup(url: string, browser: Browser) returns (shown: bool, call: OpenCall)
      modifies element`fired
      ensures call == PopupCall(options, url, browser)
      ensures shown == Truthy(browser.popup)
      ensures element.fired
           == old(element.fired) + (if shown then HookFirings(options, "onRender", [browser.popup]) else [])
    {
      var params := GetParams(browser.page, Lookup(options, "data"));
      var fullUrl := GenerateUrl(url, params);
      call := OpenCall(fullUrl, "social", FeatureString(browser.availWidth, browser.availHeight));
      var popup := browser.popup;
      if Truthy(popup) {
        Hook("onRender", [popup]);
      }
      shown := Truthy(popup);
    }

    /** `_onShareButtonClick(e)` for a button with data attributes `button`:
        the network's template is expanded and opened; a network without a
        string template throws before any window is opened. */
    method OnShareButtonClick(button: Fields, browser: Browser) returns (click: Click)
      modifies element`fired
      ensures var template := Template(options, Lookup(button, "socialNetwork"));
        match template
        case None => click == Failed && element.fired == old(element.fired)
        case Some(url) =>
          && click == Rendered(Truthy(browser.popup), PopupCall(options, url, browser))
          && element.fired
             == old(element.fired) + (if Truthy(browser.popup) then HookFirings(options, "onRender", [browser.popup]) else [])
    {
      var template := Template(options, Lookup(button, "socialNetwork"));
      if template.None? {
        click := Failed;
        return;
      }
      var shown, call := RenderPopup(template.value, browser);
      click := Rendered(shown, call);
    }
  }

  // ---- $.fn.yiiSocialShare ----

  /** The instance stored on an element belongs to that element. */
  predicate Registered(e: Element)
    reads e
  {
    e.instance.Some? ==> e.instance.value.element == e
  }

  predicate Distinct(elements: seq<Element>)
  {
    forall i, j | 0 <= i < j < |elements| :: elements[i] != elements[j]
  }

  /** `!options || typeof options === 'object'`: no options, or an object
      (`null` and host objects included), attaches the widget. */
  predicate IsAttachCall(options: Value)
  {
    !Truthy(options) || options.Obj? || options.Null? || options.Host?
  }

  datatype JsError = NoSuchMethod(methodName: string) | TypeError

  /** What `$.fn.yiiSocialShare` gives back: the collection itself, a value,
      an exception, or a call this model does not follow. */
  datatype Outcome = Chained | Returned(value: Value) | Threw(error: JsError) | Unmodelled(callee: Callable)

  /** What attaching can change of an element: its instance, its handlers
      and what has fired on it. */
  datatype Slot = Slot(instance: Option<Plugin>, handlers: seq<Handler>, fired: seq<Firing>)

  function SlotOf(e: Element): Slot
    reads e
  {
    Slot(e.instance, e.handlers, e.fired)
  }

  /** The slots of a collection's elements, in order. */
  ghost function Slots(elements: seq<Element>): (r: seq<Slot>)
    reads set e | e in elements
    ensures |r| == |elements|
    ensures forall j | 0 <= j < |elements| :: r[j] == SlotOf(elements[j])
  {
    if elements == [] then [] else [SlotOf(elements[0])] + Slots(elements[1..])
  }

  /** An element attached from the state `was`: an instance it already had
      is kept and nothing else changes; otherwise it has an instance built
      from the options and its data attributes, whose `onInit` has run. */
  predicate AttachedFrom(e: Element, was: Slot, options: Value)
    reads e, InstanceSet(e)
  {
    && e.instance.Some?
    && (was.instance.Some? ==> SlotOf(e) == was)
    && (was.instance.None? ==>
          && e.instance.value.options == MergeOptions(options, e.data)
          && e.handlers == was.handlers + [ClickHandler]
          && e.fired == was.fired + HookFirings(e.instance.value.options, "onInit", []))
  }

  /** An element after attaching, with a new instance when it had none. */
  twostate predicate Attached(e: Element, options: Value)
    reads e, InstanceSet(e)
  {
    && AttachedFrom(e, old(SlotOf(e)), options)
    && (old(e.instance).None? ==> fresh(e.instance.value))
  }

  /** The attaching form: every element without an instance gets one, built
      from the options and the element's data attributes; elements that
      have one are left alone, so attaching again runs no second `onInit`. */
  method Attach(elements: seq<Element>, options: Value) returns (outcome: Outcome)
    requires Distinct(elements)
    requires forall j | 0 <= j < |elements| :: Registered(elements[j])
    modifies set e | e in elements
    ensures outcome == Chained
    ensures forall j | 0 <= j < |elements| :: Registered(elements[j]) && Attached(elements[j], options)
  {
    ghost var before := Slots(elements);
    var i := 0;
    while i < |elements|
      invariant 0 <= i <= |elements|
      invariant AttachedUpTo(elements, before, options, i)
      invariant forall j | 0 <= j < |elements| && before[j].instance.None? && elements[j].instance.Some? ::
        fresh(elements[j].instance.value)
    {
      AttachAt(elements, before, options, i);
      i := i + 1;
    }
    outcome := Chained;
  }

  /** The elements before `i` are attached from their slots in `before`;
      the rest still hold them. */
  predicate AttachedUpTo(elements: seq<Element>, before: seq<Slot>, options: Value, i: nat)
    reads set e | e in elements, set e, p | e in elements && p in InstanceSet(e) :: p
  {
    && |before| == |elements|
    && i <= |elements|
    && (forall j | 0 <= j < |elements| :: Registered(elements[j]))
    && (forall j | 0 <= j < i :: AttachedFrom(elements[j], before[j], options))
    && (forall j | i <= j < |elements| :: SlotOf(elements[j]) == before[j])
  }

  /** One step of `this.each(...)`: attaching the `i`-th element. */
  method AttachAt(elements: seq<Element>, ghost before: seq<Slot>, options: Value, i: nat)
    requires Distinct(elements) && i < |elements|
    requires AttachedUpTo(elements, before, options, i)
    modifies elements[i]
    ensures AttachedUpTo(elements, before, options, i + 1)
    ensures before[i].instance.None? ==> fresh(elements[i].instance.value)
  {
    var e := elements[i];
    assert forall j | 0 <= j < |elements| && j != i :: elements[j] != e;
    AttachOne(e, options);
  }

  /** `if (!$.data(this, DATA_KEY)) { ... }` for one element. */
  method AttachOne(e: Element, options: Value)
    requires Registered(e)
    modifies e
    ensures Registered(e)
    ensures AttachedFrom(e, old(SlotOf(e)), options)
    ensures old(e.instance).None? ==> fresh(e.instance.value)
  {
    if e.instance.None? {
      var p := new Plugin(e, options, e.data);
      e.instance := Some(p);
    }
  }

  /** `args[0].replace('_', '')`: the first underscore removed. */
  function MethodName(s: string): (r: string)
    ensures '_' !in s ==> r == s
    ensures '_' in s ==> |r| == |s| - 1
  {
    var i := IndexOfChar(s, '_');
    if i == |s| then s else s[..i] + s[i + 1..]
  }

  /** A leading underscore is dropped, so the private methods are reached
      only with a doubled one: `'__hook'` calls `_hook`, `'_hook'` calls the
      missing `hook`. */
  lemma {:induction false} LeadingUnderscore(name: string)
    ensures MethodName("_" + name) == name
  {
    var s := "_" + name;
    assert s[0] == '_';
    assert s[1..] == name;
  }

  /** The methods of `Plugin.prototype`. */
  const PrototypeMethods: set<string> := {
    "init", "_cacheElements", "_bindEvents", "_onShareButtonClick", "filterObject", "getParams",
    "renderPopup", "generateUrl", "cleanUrl", "_hook", "option", "destroy" }

  /** The other functions an instance has: its constructor and those of
      `Object.prototype`. */
  const InheritedMethods: set<string> := {
    "constructor", "toString", "toLocaleString", "valueOf", "hasOwnProperty", "isPrototypeOf",
    "propertyIsEnumerable", "__defineGetter__", "__defineSetter__", "__lookupGetter__", "__lookupSetter__" }

  /** The functions an instance has. */
  datatype Callable =
    | InitMethod | CacheElementsMethod | BindEventsMethod | ShareButtonClickMethod
    | FilterObjectMethod | GetParamsMethod | RenderPopupMethod | GenerateUrlMethod
    | CleanUrlMethod | HookMethod | OptionMethod | DestroyMethod
    | InheritedMethod(name: string)

  /** The property name a function is reached by. */
  function JsName(c: Callable): string
  {
    match c
    case InitMethod => "init"
    case CacheElementsMethod => "_cacheElements"
    case BindEventsMethod => "_bindEvents"
    case ShareButtonClickMethod => "_onShareButtonClick"
    case FilterObjectMethod => "filterObject"
    case GetParamsMethod => "getParams"
    case RenderPopupMethod => "renderPopup"
    case GenerateUrlMethod => "generateUrl"
    case CleanUrlMethod => "cleanUrl"
    case HookMethod => "_hook"
    case OptionMethod => "option"
    case DestroyMethod => "destroy"
    case InheritedMethod(name) => name
  }

  /** `instance[methodName]` when it is a function, the same for every
      instance since they share the prototype. */
  function Resolve(name: string): (c: Option<Callable>)
    ensures c.Some? <==> name in PrototypeMethods + InheritedMethods
    ensures c.Some? ==> JsName(c.value) == name
    ensures c.Some? ==> (c.value.InheritedMethod? <==> name in InheritedMethods)
  {
    if name == "init" then Some(InitMethod)
    else if name == "_cacheElements" then Some(CacheElementsMethod)
    else if name == "_bindEvents" then Some(BindEventsMethod)
    else if name == "_onShareButtonClick" then Some(ShareButtonClickMethod)
    else if name == "filterObject" then Some(FilterObjectMethod)
    else if name == "getParams" then Some(GetParamsMethod)
    else if name == "renderPopup" then Some(RenderPopupMethod)
    else if name == "generateUrl" then Some(GenerateUrlMethod)
    else if name == "cleanUrl" then Some(CleanUrlMethod)
    else if name == "_hook" then Some(HookMethod)
    else if name == "option" then Some(OptionMethod)
    else if name == "destroy" then Some(DestroyMethod)
    else if name in InheritedMethods then Some(InheritedMethod(name))
    else None
  }

  /** The functions this model follows: all of the prototype but the two
      that need a DOM event. */
  predicate Followed(c: Callable)
  {
    !c.InheritedMethod? && c != RenderPopupMethod && c != ShareButtonClickMethod
  }

  function Arg(args: seq<Value>, i: nat): Value
  {
    if i < |args| then args[i] else Undefined
  }

  /** Calls that throw a TypeError whatever the instance: a URL that is not
      a string has no `indexOf` or `replace`, a hook name that is not a
      string has no `substr`. */
  predicate ThrowsTypeError(c: Callable, args: seq<Value>)
  {
    (c == GenerateUrlMethod || c == CleanUrlMethod || c == HookMethod) && !Arg(args, 0).Str?
  }

  /** A call of a function this model follows that runs to completion. */
  predicate Effective(c: Callable, args: seq<Value>)
  {
    Followed(c) && !ThrowsTypeError(c, args)
  }

  /** What such a call returns, given the instance's options before it. */
  function CallResult(options: Fields, c: Callable, args: seq<Value>, page: PageMeta): Value
  {
    match c
    case OptionMethod => if Truthy(Arg(args, 1)) then Undefined else Lookup(options, ToString(Arg(args, 0)))
    case FilterObjectMethod => Obj(Filtered([], ObjectEntries(Arg(args, 0))))
    case GetParamsMethod => Obj(Params(page, Lookup(options, "data")))
    case GenerateUrlMethod =>
      if Arg(args, 0).Str? then Str(CleanUrl(SubstituteAll(Arg(args, 0).s, Enumerate(Arg(args, 1))))) else Undefined
    case CleanUrlMethod => if Arg(args, 0).Str? then Str(CleanUrl(Arg(args, 0).s)) else Undefined
    case _ => Undefined
  }

  /** How a call on one instance ends. */
  function CallOutcome(options: Fields, c: Callable, args: seq<Value>, page: PageMeta): (r: Outcome)
    ensures r.Returned? <==> Effective(c, args)
  {
    if !Followed(c) then Unmodelled(c)
    else if ThrowsTypeError(c, args) then Threw(TypeError)
    else Returned(CallResult(options, c, args, page))
  }

  function OptionsAfter(options: Fields, c: Callable, args: seq<Value>): Fields
  {
    if c == OptionMethod && Truthy(Arg(args, 1)) then Put(options, ToString(Arg(args, 0)), Arg(args, 1))
    else options
  }

  /** The hook a call runs, with its arguments. */
  function HookRun(c: Callable, args: seq<Value>): Option<(string, seq<Value>)>
  {
    match c
    case InitMethod => Some(("onInit", []))
    case HookMethod => if Arg(args, 0).Str? then Some((Arg(args, 0).s, args[1..])) else None
    case DestroyMethod => Some(("onDestroy", []))
    case _ => None
  }

  function FiredAfter(options: Fields, fired: seq<Firing>, c: Callable, args: seq<Value>): seq<Firing>
  {
    match HookRun(c, args)
    case Some((hookName, hookArgs)) => fired + HookFirings(options, hookName, hookArgs)
    case None => fired
  }

  function HandlersAfter(handlers: seq<Handler>, c: Callable): seq<Handler>
  {
    if c == InitMethod || c == BindEventsMethod then handlers + [ClickHandler]
    else if c == DestroyMethod then Off(handlers, PluginName)
    else handlers
  }

  function InstanceAfter(instance: Option<Plugin>, c: Callable): Option<Plugin>
  {
    if c == DestroyMethod then None else instance
  }

  /** `instance[methodName].apply(instance, args)`; for a function this
      model does not follow, the outcome is `Unmodelled` and no effect is
      stated. */
  method Invoke(p: Plugin, c: Callable, args: seq<Value>, page: PageMeta) returns (outcome: Outcome)
    modifies p`options, p.element`handlers, p.element`fired, p.element`instance
    ensures outcome == CallOutcome(old(p.options), c, args, page)
    ensures Effective(c, args) ==>
      && p.options == OptionsAfter(old(p.options), c, args)
      && p.element.fired == FiredAfter(old(p.options), old(p.element.fired), c, args)
      && p.element.handlers == HandlersAfter(old(p.element.handlers), c)
      && p.element.instance == InstanceAfter(old(p.element.instance), c)
    ensures Followed(c) && ThrowsTypeError(c, args) ==>
      && p.options == old(p.options)
      && unchanged(p.element)
  {
    if !Followed(c) {
      return Unmodelled(c);
    }
    if ThrowsTypeError(c, args) {
      return Threw(TypeError);
    }
    var result := Undefined;
    if Computes(c) {
      result := Evaluate(p.options, c, args, page);
    } else {
      match c {
        case InitMethod =>
          p.Init();
        case BindEventsMethod =>
          p.BindEvents();
        case HookMethod =>
          p.Hook(Arg(args, 0).s, args[1..]);
        case OptionMethod =>
          result := p.Option(ToString(Arg(args, 0)), Arg(args, 1));
        case DestroyMethod =>
          p.Destroy();
        case _ =>
          // `_cacheElements` only caches jQuery wrappers of the page
      }
    }
    outcome := Returned(result);
  }

  /** The functions that only compute a value from their arguments, the
      instance's options and the page. */
  predicate Computes(c: Callable)
  {
    c.FilterObjectMethod? || c.GetParamsMethod? || c.GenerateUrlMethod? || c.CleanUrlMethod?
  }

  /** A call of such a function that runs to completion. */
  method Evaluate(options: Fields, c: Callable, args: seq<Value>, page: PageMeta) returns (result: Value)
    requires Computes(c) && !ThrowsTypeError(c, args)
    ensures result == CallResult(options, c, args, page)
  {
    match c {
      case FilterObjectMethod =>
        var data := FilterObject(Arg(args, 0));
        result := Obj(data);
      case GetParamsMethod =>
        var params := GetParams(page, Lookup(options, "data"));
        result := Obj(params);
      case GenerateUrlMethod =>
        var url := GenerateUrl(Arg(args, 0).s, Enumerate(Arg(args, 1)));
        result := Str(url);
      case CleanUrlMethod =>
        result := Str(CleanUrl(Arg(args, 0).s));
    }
  }

  /** The instances on a collection's elements. */
  ghost function Instances(elements: seq<Element>): set<Plugin>
    reads set e | e in elements
  {
    set e | e in elements && e.instance.Some? :: e.instance.value
  }

  /** Index of the first element without an instance, or the length. */
  function FirstBare(elements: seq<Element>): (k: nat)
    reads set e | e in elements
    ensures k <= |elements|
    ensures forall i | 0 <= i < k :: elements[i].instance.Some?
    ensures k < |elements| ==> elements[k].instance.None?
  {
    if |elements| == 0 then 0
    else if elements[0].instance.None? then 0
    else 1 + FirstBare(elements[1..])
  }

  /** What a method call can see and change of an element: its instance,
      that instance's options, its handlers and what has fired on it. */
  datatype View = View(instance: Option<Plugin>, options: Fields, handlers: seq<Handler>, fired: seq<Firing>)

  /** The instance an element has, as a set to read or modify. */
  function InstanceSet(e: Element): set<Plugin>
    reads e
  {
    if e.instance.Some? then {e.instance.value} else {}
  }

  function ViewOf(e: Element): View
    reads e, InstanceSet(e)
  {
    View(e.instance, if e.instance.Some? then e.instance.value.options else [], e.handlers, e.fired)
  }

  /** The views of a collection's elements. */
  function Views(elements: seq<Element>): (r: seq<View>)
    reads set e | e in elements
    reads Instances(elements)
    ensures |r| == |elements|
    ensures forall j | 0 <= j < |elements| :: r[j] == ViewOf(elements[j])
  {
    seq(|elements|, j requires 0 <= j < |elements| reads elements, Instances(elements) => ViewOf(elements[j]))
  }

  /** One call's effect: the element and the instance it had are as the call
      leaves an element whose view was `before`. */
  predicate Applied(e: Element, before: View, c: Callable, args: seq<Value>)
    reads e, if before.instance.Some? then {before.instance.value} else {}
  {
    && before.instance.Some?
    && before.instance.value.options == OptionsAfter(before.options, c, args)
    && e.fired == FiredAfter(before.options, before.fired, c, args)
    && e.handlers == HandlersAfter(before.handlers, c)
    && e.instance == InstanceAfter(before.instance, c)
  }

  /** The element and the instance it had are as its view `before` says. */
  predicate Kept(e: Element, before: View)
    reads e, if before.instance.Some? then {before.instance.value} else {}
  {
    && e.instance == before.instance
    && e.handlers == before.handlers
    && e.fired == before.fired
    && (before.instance.Some? ==> before.instance.value.options == before.options)
  }

  /** What the method form returns after the last instance has returned
      `value`: the collection itself when that is `undefined`. */
  function ReturnOf(value: Value): Outcome
  {
    if value == Undefined then Chained else Returned(value)
  }

  /** The callback `each` runs on the `i`th element of a collection whose
      elements had the views `before`, once it has found the instance: the
      call on that instance has its effect on the `i`th element, and the
      elements before it, already called, and after it, not yet reached,
      stay as they were. */
  method CallAt(elements: seq<Element>, i: nat, callee: Callable, args: seq<Value>, page: PageMeta, ghost before: seq<View>)
    returns (r: Outcome)
    requires i < |elements| == |before|
    requires Distinct(elements)
    requires before[i].instance.Some? && before[i].instance.value.element == elements[i]
    requires forall j | 0 <= j < i :: Applied(elements[j], before[j], callee, args)
    requires forall j | i <= j < |elements| :: Kept(elements[j], before[j])
    requires forall j | 0 <= j < |elements| && j != i && before[j].instance.Some? ::
      before[j].instance.value != before[i].instance.value
    modifies elements[i], before[i].instance.value
    ensures r == CallOutcome(before[i].options, callee, args, page)
    ensures forall j | 0 <= j < i :: Applied(elements[j], before[j], callee, args)
    ensures Effective(callee, args) ==> Applied(elements[i], before[i], callee, args)
    ensures Followed(callee) && ThrowsTypeError(callee, args) ==> Kept(elements[i], before[i])
    ensures forall j | i < j < |elements| :: Kept(elements[j], before[j])
  {
    assert Kept(elements[i], before[i]);
    var p := elements[i].instance.value;
    r := Invoke(p, callee, args, page);
    forall j | 0 <= j < i
      ensures Applied(elements[j], before[j], callee, args)
    {
      assert elements[j] != elements[i];
    }
    forall j | i < j < |elements|
      ensures Kept(elements[j], before[j])
    {
      assert elements[j] != elements[i];
    }
  }

  /** A name that is no function, or one whose effects this model follows. */
  predicate Traced(callee: Option<Callable>)
  {
    callee.None? || Followed(callee.value)
  }

  /** How the method form ends on a collection whose elements had the views
      `before` and whose first element without an instance is at `bare`:
      an empty collection is returned as it is; a name that is not a
      function, or a first element without an instance, throws; a call
      that does not run to completion ends it; an element without an
      instance further on throws; otherwise the last call's value is
      returned, or the collection when that is `undefined`. */
  function MethodOutcome(size: nat, bare: nat, first: Fields, last: Fields, name: string, callee: Option<Callable>,
                         args: seq<Value>, page: PageMeta): Outcome
  {
    if size == 0 then Chained
    else if callee.None? || bare == 0 then Threw(NoSuchMethod(name))
    else if !Effective(callee.value, args) then CallOutcome(first, callee.value, args, page)
    else if bare < size then Threw(NoSuchMethod(name))
    else ReturnOf(CallResult(last, callee.value, args, page))
  }

  /** The options of the instance of the `i`th element, if it has one. */
  function OptionsAt(elements: seq<Element>, i: int): Fields
    reads set e | e in elements
    reads Instances(elements)
  {
    if 0 <= i < |elements| && elements[i].instance.Some? then elements[i].instance.value.options else []
  }

  /** A call that reaches a function this model follows and runs to
      completion. */
  predicate Reaches(callee: Option<Callable>, args: seq<Value>)
  {
    callee.Some? && Effective(callee.value, args)
  }

  /** The method form, for the method `name`, which is `callee` on every
      instance: the method is called on each element's instance in turn,
      the first element without an instance (or a name that is not a
      function) throws, and the value of the last call is returned. For a
      method this model follows, each element the call reached, up to the
      first without an instance, has the call's effect and every other
      element is unchanged; for one it does not follow, no effect is
      stated once an instance was reached. `plugins` holds the elements'
      instances. */
  method CallMethod(elements: seq<Element>, name: string, callee: Option<Callable>, args: seq<Value>, page: PageMeta,
                    ghost plugins: set<Plugin>)
    returns (outcome: Outcome)
    requires Distinct(elements)
    requires forall e | e in elements :: Registered(e)
    requires forall e | e in elements && e.instance.Some? :: e.instance.value in plugins
    modifies set e | e in elements
    modifies plugins
    ensures outcome == MethodOutcome(|elements|, old(FirstBare(elements)),
                                   old(OptionsAt(elements, 0)), old(OptionsAt(elements, |elements| - 1)),
                                   name, callee, args, page)
    ensures Traced(callee) || old(FirstBare(elements)) == 0 ==> forall j | 0 <= j < |elements| ::
      if Reaches(callee, args) && j < old(FirstBare(elements)) then
        Applied(elements[j], old(ViewOf(elements[j])), callee.value, args)
      else
        Kept(elements[j], old(ViewOf(elements[j])))
  {
    ghost var bare := FirstBare(elements);
    ghost var before := Views(elements);
    forall j | 0 <= j < |elements| && before[j].instance.Some?
      ensures before[j].instance.value.element == elements[j]
      ensures before[j].instance.value in plugins
    {
      assert Registered(elements[j]);
    }
    var returnVal := Undefined;
    var i := 0;
    while i < |elements|
      invariant 0 <= i <= |elements|
      invariant i <= bare
      invariant i > 0 ==> Reaches(callee, args)
      invariant i == 0 ==> returnVal == Undefined
      invariant i > 0 ==> returnVal == CallResult(before[i - 1].options, callee.value, args, page)
      invariant forall j | 0 <= j < i :: Applied(elements[j], before[j], callee.value, args)
      invariant forall j | i <= j < |elements| :: Kept(elements[j], before[j])
    {
      var e := elements[i];
      if e.instance.None? || callee.None? {
        return Threw(NoSuchMethod(name));
      }
      assert i < bare;
      var r := CallAt(elements, i, callee.value, args, page, before);
      if !r.Returned? {
        return r;
      }
      returnVal := r.value;
      i := i + 1;
    }
    outcome := ReturnOf(returnVal);
  }

  /** `$.fn.yiiSocialShare(options)` and `$.fn.yiiSocialShare('method',
      args...)` on a jQuery collection, whose elements are distinct. */
  method YiiSocialShare(elements: seq<Element>, args: seq<Value>, page: PageMeta) returns (outcome: Outcome)
    requires Distinct(elements)
    requires forall e | e in elements :: Registered(e)
    modifies set e | e in elements
    modifies Instances(elements)
    ensures IsAttachCall(Arg(args, 0)) ==>
      && outcome == Chained
      && forall j | 0 <= j < |elements| :: Registered(elements[j]) && Attached(elements[j], Arg(args, 0))
    ensures !IsAttachCall(Arg(args, 0)) && !Arg(args, 0).Str? ==>
      && outcome == Returned(Undefined)
      && forall e | e in elements :: unchanged(e)
    ensures !IsAttachCall(Arg(args, 0)) && Arg(args, 0).Str? ==>
      var name := MethodName(Arg(args, 0).s);
      && outcome == MethodOutcome(|elements|, old(FirstBare(elements)),
                                   old(OptionsAt(elements, 0)), old(OptionsAt(elements, |elements| - 1)),
                                   name, Resolve(name), args[1..], page)
      && (Traced(Resolve(name)) || old(FirstBare(elements)) == 0 ==> forall j | 0 <= j < |elements| ::
            if Reaches(Resolve(name), args[1..]) && j < old(FirstBare(elements)) then
              Applied(elements[j], old(ViewOf(elements[j])), Resolve(name).value, args[1..])
            else
              Kept(elements[j], old(ViewOf(elements[j]))))
  {
    var options := Arg(args, 0);
    if IsAttachCall(options) {
      forall j | 0 <= j < |elements|
        ensures Registered(elements[j])
      {
        assert elements[j] in elements;
      }
      outcome := Attach(elements, options);
    } else if options.Str? {
      var name := MethodName(options.s);
      outcome := CallMethod(elements, name, Resolve(name), args[1..], page, Instances(elements));
    } else {
      outcome := Returned(Undefined);
    }
  }

  // ---- scenarios ----

  /** The attaching form on a one-element collection. */
  method AttachSingle(e: Element, options: Value) returns (outcome: Outcome)
    requires Registered(e)
    modifies e
    ensures outcome == Chained && Registered(e) && Attached(e, options)
  {
    outcome := Attach([e], options);
    assert [e][0] == e;
  }

  /** Attaching twice: one instance, built from the first options, and one
      `onInit`. */
  method AttachTwice(e: Element, first: Value, second: Value)
    requires e.instance.None?
    modifies e
    ensures e.instance.Some? && e.instance.value.options == MergeOptions(first, e.data)
    ensures e.handlers == old(e.handlers) + [ClickHandler]
    ensures e.fired == old(e.fired) + HookFirings(MergeOptions(first, e.data), "onInit", [])
  {
    assert Registered(e);
    var a := AttachSingle(e, first);
    ghost var p := e.instance.value;
    assert p.options == MergeOptions(first, e.data);
    var b := AttachSingle(e, second);
    assert e.instance == Some(p);
    assert p.options == MergeOptions(first, e.data);
  }

  /** After `destroy`, any further method call on the element throws. */
  method DestroyThenCall(e: Element, name: string, args: seq<Value>, page: PageMeta)
    returns (destroyed: Outcome, after: Outcome)
    requires Registered(e) && e.instance.Some?
    modifies e, e.instance.value
    ensures destroyed == Chained
    ensures e.instance == None
    ensures after == Threw(NoSuchMethod(name))
  {
    destroyed := CallMethod([e], "destroy", Resolve("destroy"), [], page, {e.instance.value});
    after := CallMethod([e], name, Resolve(name), args, page, {});
  }

  /** `destroy` fires `onDestroy` before unbinding and clears the slot; a
      later attach builds a fresh instance and fires `onInit` again. */
  method DestroyThenAttach(e: Element, options: Value, page: PageMeta)
    returns (destroyed: Outcome)
    requires Registered(e) && e.instance.Some?
    modifies e, e.instance.value
    ensures destroyed == Chained
    ensures e.instance.Some? && fresh(e.instance.value)
    ensures e.instance.value.options == MergeOptions(options, e.data)
    ensures e.handlers == Off(old(e.handlers), PluginName) + [ClickHandler]
    ensures e.fired
         == old(e.fired) + HookFirings(old(e.instance.value.options), "onDestroy", [])
            + HookFirings(MergeOptions(options, e.data), "onInit", [])
  {
    destroyed := CallMethod([e], "destroy", Resolve("destroy"), [], page, {e.instance.value});
    var attached := Attach([e], options);
  }

  /** `option(key, val)` with a truthy value on one element sets the
      option and returns the collection. */
  method SetOption(e: Element, key: string, val: Value, page: PageMeta) returns (stored: Outcome)
    requires Registered(e) && e.instance.Some? && Truthy(val)
    modifies e, e.instance.value
    ensures stored == Chained
    ensures e.instance == old(e.instance) && Registered(e)
    ensures e.instance.value.options == Put(old(e.instance.value.options), key, val)
  {
    ghost var p := e.instance.value;
    var option := Resolve("option");
    assert option == Some(OptionMethod);
    assert FirstBare([e]) == 1;
    stored := CallMethod([e], "option", option, [Str(key), val], page, {p});
    assert Applied([e][0], old(ViewOf(e)), OptionMethod, [Str(key), val]);
  }

  /** `option(key)` on one element returns the option's value, or the
      collection when it is `undefined`. */
  method GetOption(e: Element, key: string, page: PageMeta) returns (read: Outcome)
    requires Registered(e) && e.instance.Some?
    modifies e, e.instance.value
    ensures read == ReturnOf(Lookup(old(e.instance.value.options), key))
  {
    var option := Resolve("option");
    assert option == Some(OptionMethod);
    assert FirstBare([e]) == 1;
    read := CallMethod([e], "option", option, [Str(key)], page, {e.instance.value});
  }

  /** `option(key, val)` with a truthy value, then `option(key)`, returns the
      value. */
  method SetThenGet(e: Element, key: string, val: Value, page: PageMeta)
    returns (stored: Outcome, read: Outcome)
    requires Registered(e) && e.instance.Some? && Truthy(val)
    modifies e, e.instance.value
    ensures stored == Chained
    ensures read == Returned(val)
  {
    ghost var before := e.instance.value.options;
    stored := SetOption(e, key, val, page);
    PutLookup(before, key, val, KeyIndex(before, key), e.instance.value.options);
    read := GetOption(e, key, page);
  }
}
