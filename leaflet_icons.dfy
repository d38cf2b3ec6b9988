/**
 * Resolving the URL of a bundled Leaflet marker image. Depending on the
 * bundler, an imported image is a URL string, an object with a `src` string,
 * or a module object whose `default` is the string or holds `src`.
 */
module LeafletIcons {
  import opened Js

  /** The JavaScript values an imported image module can be. */
  datatype JsValue =
    | Undefined
    | Null
    | Bool(b: bool)
    | Num(n: real)
    | NaN
    | Str(s: string)
    | Obj(fields: map<string, JsValue>)
  {
    /** `!!this`. */
    predicate Truthy() {
      match this
      case Undefined => false
      case Null => false
      case Bool(b) => b
      case Num(n) => n != 0.0
      case NaN => false
      case Str(s) => s != ""
      case Obj(_) => true
    }

    /** `typeof this === 'string'`. */
    predicate IsString() {
      Str?
    }

    /** `this.key` on an object: an absent key reads as `undefined`. */
    function Get(key: string): (r: JsValue)
      requires Obj?
      ensures key !in fields ==> r == Undefined
      ensures key in fields ==> r == fields[key]
    {
      if key in fields then fields[key] else Undefined
    }
  }

  /**
   * `resolveIconUrl`: nothing for a falsy module; a (non-empty) string is the
   * URL itself; in an object a string `src` comes first, then a string
   * `default`, then a string `default.src`; any other shape gives nothing.
   */
  function ResolveIconUrl(mod: JsValue): (r: Option<string>)
    ensures !mod.Truthy() ==> r == None
    ensures mod.Str? && mod.s != "" ==> r == Some(mod.s)
    ensures !mod.Str? && !mod.Obj? ==> r == None
    ensures mod.Obj? && mod.Get("src").Str? ==> r == Some(mod.Get("src").s)
    ensures mod.Obj? && !mod.Get("src").Str? && mod.Get("default").Str? ==> r == Some(mod.Get("default").s)
    ensures mod.Obj? && !mod.Get("src").Str? && !mod.Get("default").Str? ==>
              var d := mod.Get("default");
              if d.Obj? && "src" in d.fields && d.fields["src"].Str? then r == Some(d.fields["src"].s) else r == None
  {
    if !mod.Truthy() then None
    else if mod.IsString() then Some(mod.s)
    else if mod.Obj? then
      var src := mod.Get("src");
      if src.IsString() then Some(src.s)
      else
        var maybeDefault := mod.Get("default");
        if maybeDefault.IsString() then Some(maybeDefault.s)
        else if maybeDefault.Truthy() && maybeDefault.Obj? && "src" in maybeDefault.fields then
          var value := maybeDefault.fields["src"];
          if value.IsString() then Some(value.s) else None
        else None
    else None
  }

  /** Every URL the resolver yields is a string read from the module, at one of the three places. */
  lemma ResolvedFromModule(mod: JsValue)
    requires ResolveIconUrl(mod).Some?
    ensures var u := ResolveIconUrl(mod).value;
            || mod == Str(u)
            || (mod.Obj? && mod.Get("src") == Str(u))
            || (mod.Obj? && mod.Get("default") == Str(u))
            || (mod.Obj? && mod.Get("default").Obj? && mod.Get("default").Get("src") == Str(u))
  {
  }

  /** The empty string is falsy: an import that resolved to `''` yields nothing rather than `''`. */
  lemma EmptyStringModule()
    ensures ResolveIconUrl(Str("")) == None
  {
  }

  /**
   * `resolveIconUrl(mod) ?? existing`: the resolved URL when there is one,
   * otherwise the option Leaflet already had.
   */
  function FinalIconUrl(mod: JsValue, existing: Option<string>): (r: Option<string>)
    ensures ResolveIconUrl(mod).Some? ==> r == ResolveIconUrl(mod)
    ensures ResolveIconUrl(mod).None? ==> r == existing
  {
    ResolveIconUrl(mod).OrElse(existing)
  }

  /** The three URLs the setup resolves, each with its own fallback. */
  datatype IconUrls = IconUrls(iconUrl: Option<string>, iconRetinaUrl: Option<string>, shadowUrl: Option<string>)

  datatype ExistingOptions = ExistingOptions(iconUrl: Option<string>, iconRetinaUrl: Option<string>, shadowUrl: Option<string>)

  /**
   * `defaultLeafletIcon`: each URL is resolved from its own image and falls
   * back to the same-named existing option; the warning is due exactly when one
   * of them is still falsy.
   */
  function DefaultIcon(icon: JsValue, icon2x: JsValue, shadow: JsValue, existing: ExistingOptions): (r: IconUrls)
    ensures r.iconUrl == FinalIconUrl(icon, existing.iconUrl)
    ensures r.iconRetinaUrl == FinalIconUrl(icon2x, existing.iconRetinaUrl)
    ensures r.shadowUrl == FinalIconUrl(shadow, existing.shadowUrl)
  {
    IconUrls(FinalIconUrl(icon, existing.iconUrl), FinalIconUrl(icon2x, existing.iconRetinaUrl),
             FinalIconUrl(shadow, existing.shadowUrl))
  }

  /** `!iconUrl || !iconRetinaUrl || !shadowUrl`. */
  predicate NeedsWarning(urls: IconUrls) {
    !TruthyText(urls.iconUrl) || !TruthyText(urls.iconRetinaUrl) || !TruthyText(urls.shadowUrl)
  }

  /** With three plain non-empty string imports no fallback is consulted and no warning is due. */
  lemma StringImportsNeedNoFallback(icon: string, icon2x: string, shadow: string, existing: ExistingOptions)
    requires icon != "" && icon2x != "" && shadow != ""
    ensures DefaultIcon(Str(icon), Str(icon2x), Str(shadow), existing) == IconUrls(Some(icon), Some(icon2x), Some(shadow))
    ensures !NeedsWarning(DefaultIcon(Str(icon), Str(icon2x), Str(shadow), existing))
  {
  }
}
