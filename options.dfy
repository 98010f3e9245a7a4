/**
 * The widget's options: the `DEFAULTS` object and the merge the `Plugin`
 * constructor performs, in which data attributes of the element override
 * the options passed to `$.fn.yiiSocialShare`, which override the
 * defaults, and the share-URL templates of `socialNetworks` are merged
 * network by network.
 */
module Options {
  import opened Wrappers
  import opened JsValues

  const FacebookTemplate: string :=
    "http://www.facebook.com/sharer.php?u={url}&picture={image}&title={title}&quote={description}"
  const TwitterTemplate: string :=
    "https://twitter.com/share?url={url}&text={title}&hashtags={hashtags}"
  const LinkedinTemplate: string :=
    "http://www.linkedin.com/shareArticle?url={url}&title={title}"
  const PinterestTemplate: string :=
    "https://pinterest.com/pin/create/bookmarklet/?media={image}&url={url}&is_video={is_video}&description={title}"

  /** `DEFAULTS.socialNetworks`. */
  const DefaultNetworks: Fields := [
    ("facebook", Str(FacebookTemplate)),
    ("twitter", Str(TwitterTemplate)),
    ("linkedin", Str(LinkedinTemplate)),
    ("pinterest", Str(PinterestTemplate))
  ]

  /** `DEFAULTS.data`: every share parameter left to the page. */
  const DefaultData: Fields := [
    ("title", Null),
    ("description", Null),
    ("image", Null),
    ("hashtags", Null),
    ("url", Null)
  ]

  /** `DEFAULTS`. */
  const Defaults: Fields := [
    ("width", Num(800)),
    ("height", Num(500)),
    ("socialNetworks", Obj(DefaultNetworks)),
    ("data", Obj(DefaultData)),
    ("onInit", Func("function () {}")),
    ("onRender", Func("function (popup) {}")),
    ("onDestroy", Func("function () {}"))
  ]

  lemma DefaultsDistinct()
    ensures DistinctKeys(Defaults)
    ensures DistinctKeys(DefaultNetworks)
    ensures Lookup(Defaults, "socialNetworks") == Obj(DefaultNetworks)
  {
    DistinctBySignature(DefaultNetworks);
    DistinctBySignature(Defaults);
    LookupAt(Defaults, "socialNetworks", 2);
  }

  /** Names that differ in length or first character are distinct. */
  lemma DistinctBySignature(o: Fields)
    requires forall i | 0 <= i < |o| :: |o[i].0| > 0
    requires forall i, j | 0 <= i < j < |o| :: |o[i].0| != |o[j].0| || o[i].0[0] != o[j].0[0]
    ensures DistinctKeys(o)
  {
  }

  lemma CopyDefaults()
    ensures ExtendFields([], Defaults) == Defaults
    ensures ExtendFields([], DefaultNetworks) == DefaultNetworks
  {
    DefaultsDistinct();
    DefaultsDefined();
    CopyFresh(Defaults);
    CopyFresh(DefaultNetworks);
  }

  lemma DefaultsDefined()
    ensures forall j | 0 <= j < |Defaults| :: Defaults[j].1 != Undefined
    ensures forall j | 0 <= j < |DefaultNetworks| :: DefaultNetworks[j].1 != Undefined
  {
  }

  /** Copying defined properties with distinct names into a fresh object
      gives them back. */
  lemma {:induction false} CopyFresh(source: Fields)
    requires DistinctKeys(source)
    requires forall j | 0 <= j < |source| :: source[j].1 != Undefined
    ensures ExtendFields([], source) == source
  {
    CopyInto([], source);
    assert [] + source == source;
  }

  /** Extending with properties that are all defined and new to the target
      appends them. */
  lemma {:induction false} CopyInto(target: Fields, source: Fields)
    requires DistinctKeys(source)
    requires forall j | 0 <= j < |source| :: source[j].1 != Undefined
    requires forall i, j | 0 <= i < |target| && 0 <= j < |source| :: target[i].0 != source[j].0
    ensures ExtendFields(target, source) == target + source
    decreases |source|
  {
    if |source| > 0 {
      var k, v := source[0].0, source[0].1;
      var next := target + [(k, v)];
      assert Put(target, k, v) == next;
      var rest := source[1..];
      forall i, j | 0 <= i < |next| && 0 <= j < |rest| ensures next[i].0 != rest[j].0 {
        assert rest[j] == source[j + 1];
      }
      CopyInto(next, rest);
      assert source == [source[0]] + rest;
      assert next == target + [source[0]];
      SeqAssoc(target, [source[0]], rest);
    }
  }

  /** `$.extend({}, DEFAULTS, options, metadata)`, the copy of the defaults
      written as the defaults (`CopyDefaults`). */
  function Layered(options: Value, metadata: Fields): Fields
  {
    ExtendFields(Extend(Defaults, options), metadata)
  }

  /** `$.extend({}, DEFAULTS.socialNetworks, layered.socialNetworks)`. */
  function Networks(layered: Fields): Fields
  {
    Extend(DefaultNetworks, Lookup(layered, "socialNetworks"))
  }

  /** `this.options` as the constructor leaves it. */
  function MergeOptions(options: Value, metadata: Fields): (r: Fields)
    ensures DistinctKeys(r)
  {
    DefaultsDistinct();
    var layered := Layered(options, metadata);
    Put(layered, "socialNetworks", Obj(Networks(layered)))
  }

  /** The first of three values that is not `undefined`. */
  function FirstDefined(a: Value, b: Value, c: Value): Value
  {
    if a != Undefined then a else if b != Undefined then b else c
  }

  /** Every option but `socialNetworks` comes from the element's data
      attributes if they give it, else from the options passed in, else
      from the defaults. Object-valued options such as `data` are taken
      whole from the winner, not merged. */
  lemma {:induction false} MergePriority(options: Value, metadata: Fields, k: string)
    requires options.Obj? ==> DistinctKeys(options.fields)
    requires DistinctKeys(metadata)
    ensures Lookup(Layered(options, metadata), k)
         == FirstDefined(Lookup(metadata, k), Lookup(Enumerate(options), k), Lookup(Defaults, k))
    ensures k != "socialNetworks" ==>
      Lookup(MergeOptions(options, metadata), k) == Lookup(Layered(options, metadata), k)
  {
    DefaultsDistinct();
    EnumerateDistinct(options);
    ExtendLookup(Defaults, Enumerate(options), k);
    ExtendLookup(Extend(Defaults, options), metadata, k);
  }

  /** The `socialNetworks` object the winner of the merge supplies. */
  function GivenNetworks(options: Value, metadata: Fields): Value
  {
    FirstDefined(Lookup(metadata, "socialNetworks"),
                 Lookup(Enumerate(options), "socialNetworks"),
                 Obj(DefaultNetworks))
  }

  /** `socialNetworks` is a fresh object holding, for each network, the
      template the winning `socialNetworks` gives, or the default one. */
  lemma {:induction false} NetworksMerged(options: Value, metadata: Fields, network: string)
    requires options.Obj? ==> DistinctKeys(options.fields)
    requires DistinctKeys(metadata)
    requires GivenNetworks(options, metadata).Obj? ==> DistinctKeys(GivenNetworks(options, metadata).fields)
    ensures var given := Enumerate(GivenNetworks(options, metadata));
      var networks := Lookup(MergeOptions(options, metadata), "socialNetworks");
      && networks.Obj?
      && Lookup(networks.fields, network)
         == if Lookup(given, network) != Undefined then Lookup(given, network)
            else Lookup(DefaultNetworks, network)
  {
    DefaultsDistinct();
    var layered := Layered(options, metadata);
    MergePriority(options, metadata, "socialNetworks");
    var given := GivenNetworks(options, metadata);
    assert Lookup(layered, "socialNetworks") == given;
    EnumerateDistinct(given);
    ExtendLookup(DefaultNetworks, Enumerate(given), network);
  }

  /** `this.options.socialNetworks[network]` as a template `generateUrl`
      can expand: None when the lookup itself throws (no `socialNetworks`
      object) or yields something other than a string, whose missing
      `indexOf` and `replace` make `generateUrl` throw. */
  function Template(options: Fields, network: Value): Option<string>
  {
    var networks := Lookup(options, "socialNetworks");
    if networks == Undefined || networks == Null then None
    else match Lookup(Enumerate(networks), ToString(network))
      case Str(t) => Some(t)
      case _ => None
  }

  /** Right after construction the template of a network is the one the
      element or the options give, else the default; a network neither
      knows has no template. */
  lemma TemplateOfMerged(options: Value, metadata: Fields, network: string)
    requires options.Obj? ==> DistinctKeys(options.fields)
    requires DistinctKeys(metadata)
    requires GivenNetworks(options, metadata).Obj? ==> DistinctKeys(GivenNetworks(options, metadata).fields)
    ensures var given := Lookup(Enumerate(GivenNetworks(options, metadata)), network);
      var chosen := if given != Undefined then given else Lookup(DefaultNetworks, network);
      Template(MergeOptions(options, metadata), Str(network)) == if chosen.Str? then Some(chosen.s) else None
  {
    NetworksMerged(options, metadata, network);
    var networks := Lookup(MergeOptions(options, metadata), "socialNetworks");
    assert networks.Obj? && Enumerate(networks) == networks.fields;
    assert ToString(Str(network)) == network;
    TemplateOf(MergeOptions(options, metadata), network);
  }

  /** A network's template in options whose `socialNetworks` is an object. */
  lemma TemplateOf(options: Fields, network: string)
    requires Lookup(options, "socialNetworks").Obj?
    ensures var t := Lookup(Lookup(options, "socialNetworks").fields, network);
      Template(options, Str(network)) == if t.Str? then Some(t.s) else None
  {
  }

  lemma NetworkLookups()
    ensures Lookup(DefaultNetworks, "facebook") == Str(FacebookTemplate)
    ensures Lookup(DefaultNetworks, "twitter") == Str(TwitterTemplate)
    ensures Lookup(DefaultNetworks, "linkedin") == Str(LinkedinTemplate)
    ensures Lookup(DefaultNetworks, "pinterest") == Str(PinterestTemplate)
  {
    LookupAt(DefaultNetworks, "linkedin", 2);
    LookupAt(DefaultNetworks, "pinterest", 3);
  }

  lemma GivenDefault(options: Value, metadata: Fields)
    requires Lookup(metadata, "socialNetworks") == Undefined
    requires Lookup(Enumerate(options), "socialNetworks") == Undefined
    ensures GivenNetworks(options, metadata) == Obj(DefaultNetworks)
  {
  }

  lemma DefaultTemplate(options: Value, metadata: Fields, network: string)
    requires options.Obj? ==> DistinctKeys(options.fields)
    requires DistinctKeys(metadata)
    requires Lookup(metadata, "socialNetworks") == Undefined
    requires Lookup(Enumerate(options), "socialNetworks") == Undefined
    ensures Template(MergeOptions(options, metadata), Str(network))
         == if Lookup(DefaultNetworks, network).Str? then Some(Lookup(DefaultNetworks, network).s) else None
  {
    DefaultsDistinct();
    GivenDefault(options, metadata);
    TemplateOfMerged(options, metadata, network);
  }

  /** When neither the element nor the options give `socialNetworks`, the
      four networks have their default templates and any other network has
      none. */
  lemma DefaultTemplates(options: Value, metadata: Fields, network: string)
    requires options.Obj? ==> DistinctKeys(options.fields)
    requires DistinctKeys(metadata)
    requires Lookup(metadata, "socialNetworks") == Undefined
    requires Lookup(Enumerate(options), "socialNetworks") == Undefined
    ensures Template(MergeOptions(options, metadata), Str("facebook")) == Some(FacebookTemplate)
    ensures Template(MergeOptions(options, metadata), Str("twitter")) == Some(TwitterTemplate)
    ensures Template(MergeOptions(options, metadata), Str("linkedin")) == Some(LinkedinTemplate)
    ensures Template(MergeOptions(options, metadata), Str("pinterest")) == Some(PinterestTemplate)
    ensures !HasKey(DefaultNetworks, network) ==> Template(MergeOptions(options, metadata), Str(network)) == None
  {
    NetworkLookups();
    DefaultTemplate(options, metadata, "facebook");
    DefaultTemplate(options, metadata, "twitter");
    DefaultTemplate(options, metadata, "linkedin");
    DefaultTemplate(options, metadata, "pinterest");
    DefaultTemplate(options, metadata, network);
  }
}
