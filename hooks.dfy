/**
 * `Plugin.prototype._hook`: a hook runs the callback option of the same
 * name, when that option is a function, and then triggers a namespaced
 * jQuery event on the element (`onInit` fires `init.yiiSocialShare`).
 */
module Hooks {
  import opened Strings
  import opened JsValues

  const PluginName: string := "yiiSocialShare"

  /** `EVENT_NS`. */
  const EventNamespace: string := "." + PluginName

  /** `s.slice(k)` for `k >= 0`. */
  function Slice(s: string, k: nat): string
  {
    if k <= |s| then s[k..] else ""
  }

  /** `s.charAt(0).toLowerCase()`: the first character lower-cased, or the
      empty string. */
  function LowerFirst(s: string): string
  {
    if |s| == 0 then "" else [LowerAscii(s[0])]
  }

  /** `substr(0, 2) === 'on'`. */
  predicate HasOnPrefix(hookName: string)
  {
    |hookName| >= 2 && hookName[..2] == "on"
  }

  /** The event a hook triggers: the hook's name without `on`, its first
      letter lower-cased, followed by the namespace. */
  function EventName(hookName: string): string
  {
    var base :=
      if HasOnPrefix(hookName) then LowerFirst(Slice(hookName, 2)) + Slice(hookName, 3)
      else LowerFirst(hookName) + Slice(hookName, 1);
    base + EventNamespace
  }

  /** For `on` followed by a character: that character lower-cased, then
      the rest, then the namespace. */
  lemma EventNameOfHook(c: char, rest: string)
    ensures EventName("on" + [c] + rest) == [LowerAscii(c)] + rest + EventNamespace
  {
    var h := "on" + [c] + rest;
    assert h[..2] == "on" && h[2] == c && h[3..] == rest;
  }

  /** Any other non-empty name: its first character lower-cased, then the
      rest, then the namespace. */
  lemma EventNameOfOther(c: char, rest: string)
    requires !HasOnPrefix([c] + rest)
    ensures EventName([c] + rest) == [LowerAscii(c)] + rest + EventNamespace
  {
    var h := [c] + rest;
    assert h[0] == c && h[1..] == rest;
  }

  /** Names too short to hold anything but the prefix give the bare
      namespace. */
  lemma EventNameOfEmpty()
    ensures EventName("") == EventNamespace
    ensures EventName("on") == EventNamespace
  {
    assert "on"[..2] == "on";
  }

  /** The three hooks the widget fires. */
  lemma WidgetEvents()
    ensures EventName("onInit") == "init.yiiSocialShare"
    ensures EventName("onRender") == "render.yiiSocialShare"
    ensures EventName("onDestroy") == "destroy.yiiSocialShare"
  {
    InitEvent();
    RenderEvent();
    DestroyEvent();
  }

  lemma InitEvent()
    ensures EventName("onInit") == "init.yiiSocialShare"
  {
    KnownEvent('I', 'i', "nit", "onInit", "init");
  }

  lemma RenderEvent()
    ensures EventName("onRender") == "render.yiiSocialShare"
  {
    KnownEvent('R', 'r', "ender", "onRender", "render");
  }

  lemma DestroyEvent()
    ensures EventName("onDestroy") == "destroy.yiiSocialShare"
  {
    KnownEvent('D', 'd', "estroy", "onDestroy", "destroy");
  }

  /** A hook name spelled out as `on`, a capital and the rest. */
  lemma KnownEvent(c: char, lower: char, rest: string, hookName: string, base: string)
    requires 'A' <= c <= 'Z' && lower as int == c as int + 32
    requires hookName == "on" + [c] + rest && base == [lower] + rest
    ensures EventName(hookName) == base + ".yiiSocialShare"
  {
    EventNameOfHook(c, rest);
    assert LowerAscii(c) == lower;
    assert EventNamespace == ".yiiSocialShare";
  }

  /** A hook name in the widget's style: `on`, a capital letter, and the
      rest of the name with no namespace separator. */
  predicate IsHookName(hookName: string)
  {
    && |hookName| >= 3
    && hookName[..2] == "on"
    && 'A' <= hookName[2] <= 'Z'
    && '.' !in hookName
  }

  function UpperAscii(c: char): char
  {
    if 'a' <= c <= 'z' then (c as int - 32) as char else c
  }

  /** The hook that an event name in the widget's namespace belongs to. */
  function HookName(eventName: string): string
  {
    var n := |EventNamespace|;
    if |eventName| <= n then ""
    else
      var base := eventName[..|eventName| - n];
      "on" + [UpperAscii(base[0])] + base[1..]
  }

  /** Every hook name in the widget's style is recovered from its event
      name, so distinct hooks trigger distinct events. */
  lemma HookOfEvent(hookName: string)
    requires IsHookName(hookName)
    ensures HookName(EventName(hookName)) == hookName
  {
    var c, rest := hookName[2], hookName[3..];
    assert hookName == "on" + [c] + rest;
    EventNameOfHook(c, rest);
    var e := EventName(hookName);
    var base := [LowerAscii(c)] + rest;
    assert e == base + EventNamespace;
    assert e[..|e| - |EventNamespace|] == base;
    assert base[0] == LowerAscii(c) && base[1..] == rest;
  }

  /** What running a hook makes observable: a callback invoked with the
      element as `this`, or an event triggered on the element. */
  datatype Firing =
    | Called(hookName: string, callback: string, args: seq<Value>)
    | Triggered(eventName: string, args: seq<Value>)

  /** `_hook(hookName, args...)`. */
  function HookFirings(options: Fields, hookName: string, args: seq<Value>): (r: seq<Firing>)
    ensures 1 <= |r| <= 2
    ensures r[|r| - 1] == Triggered(EventName(hookName), args)
    ensures |r| == 2 <==> Lookup(options, hookName).Func?
    ensures |r| == 2 ==> r[0] == Called(hookName, Lookup(options, hookName).source, args)
  {
    var callback := Lookup(options, hookName);
    (if callback.Func? then [Called(hookName, callback.source, args)] else [])
      + [Triggered(EventName(hookName), args)]
  }

  /** A callback option that is not a function (a string from a data
      attribute, say) is ignored and only the event fires. */
  lemma NonFunctionCallbackIgnored(options: Fields, hookName: string, args: seq<Value>)
    requires !Lookup(options, hookName).Func?
    ensures HookFirings(options, hookName, args) == [Triggered(EventName(hookName), args)]
  {
  }
}
