/** Document metadata and its normalisation: effectiveMeta and isDefaultMeta
    (content/src/filetype.js lines 297-318). A metadata object is a record of
    the fields the code reads; an absent field is `None`. */
module Metadata {
  import opened Wrappers
  import opened JsText

  /** One entry of `meta.libs`: `{name, src, attrs}`. The attributes are kept
      in the order a `for…in` loop visits them. */
  datatype Lib = Lib(name: Option<string>, src: string, attrs: Option<seq<(string, string)>>)

  /** The fields of `doc.meta` the code reads. `lib` is the flag tested by the
      guard of line 298. */
  datatype Meta = Meta(
    scriptType: Option<string>,
    lib: Option<bool>,
    libs: Option<seq<Lib>>,
    html: Option<string>,
    css: Option<string>)

  const DefaultType := "text/coffeescript"
  const TurtleLib := Lib(Some("turtle"), "//{site}/turtlebits.js", None)
  const NoMeta := Meta(None, None, None, None, None)

  /** What isDefaultMeta compares against (lines 315-316). */
  const DefaultMeta := Meta(Some(DefaultType), None, Some([TurtleLib]), None, None)

  /** The guard of line 298: metadata with a type and the `lib` flag is used
      as it is. */
  predicate KeptAsIs(meta: Option<Meta>) {
    meta.Some? && Truthy(meta.value.scriptType) && meta.value.lib == Some(true)
  }

  /** effectiveMeta(meta): unless the guard of line 298 holds, a copy of the
      metadata (or of `{}` when there is none) in which a missing or empty type
      becomes the CoffeeScript type and missing libs become the turtle
      library. */
  function EffectiveMeta(meta: Option<Meta>): (r: Meta)
  {
    if KeptAsIs(meta) then meta.value
    else
      var m := if meta.Some? then meta.value else NoMeta;
      m.(scriptType := if Truthy(m.scriptType) then m.scriptType else Some(DefaultType),
         libs := if m.libs.Some? then m.libs else Some([TurtleLib]))
  }

  /** effectiveMeta as the source writes it: clone, then fill in the fields
      one after the other. */
  method NormalizeMeta(meta: Option<Meta>) returns (r: Meta)
    ensures r == EffectiveMeta(meta)
  {
    if meta.Some? && Truthy(meta.value.scriptType) && meta.value.lib == Some(true) {
      return meta.value;
    }
    r := if meta.Some? then meta.value else NoMeta;
    if !Truthy(r.scriptType) {
      r := r.(scriptType := Some(DefaultType));
    }
    if r.libs.None? {
      r := r.(libs := Some([TurtleLib]));
    }
  }

  /** The effective type is never missing or empty, and it is the given type
      whenever that one is usable. */
  lemma EffectiveType(meta: Option<Meta>)
    ensures Truthy(EffectiveMeta(meta).scriptType)
    ensures meta.Some? && Truthy(meta.value.scriptType) ==>
      EffectiveMeta(meta).scriptType == meta.value.scriptType
    ensures !(meta.Some? && Truthy(meta.value.scriptType)) ==>
      EffectiveMeta(meta).scriptType == Some(DefaultType)
  {
  }

  /** The effective libs are the given ones when there are any, the turtle
      library otherwise, except that metadata the guard keeps as it is keeps
      missing libs missing: the guard tests `lib`, not `libs`. */
  lemma EffectiveLibs(meta: Option<Meta>)
    ensures EffectiveMeta(meta).libs.None? <==> KeptAsIs(meta) && meta.value.libs.None?
    ensures meta.Some? && meta.value.libs.Some? ==> EffectiveMeta(meta).libs == meta.value.libs
    ensures !KeptAsIs(meta) && (meta.None? || meta.value.libs.None?) ==>
      EffectiveMeta(meta).libs == Some([TurtleLib])
  {
  }

  /** Normalisation changes nothing but the type and the libs. */
  lemma EffectiveKeeps(meta: Option<Meta>)
    ensures var r := EffectiveMeta(meta); var m := if meta.Some? then meta.value else NoMeta;
      r.lib == m.lib && r.html == m.html && r.css == m.css
  {
  }

  /** Normalising effective metadata again changes nothing. */
  lemma EffectiveIdempotent(meta: Option<Meta>)
    ensures EffectiveMeta(Some(EffectiveMeta(meta))) == EffectiveMeta(meta)
  {
  }

  /** Removing `html` from the metadata removes it from the effective
      metadata and changes nothing else. */
  lemma EffectiveWithoutHtml(m: Meta)
    ensures EffectiveMeta(Some(m.(html := None))) == EffectiveMeta(Some(m)).(html := None)
  {
  }

  /** isDefaultMeta(meta), comparing records where the source compares the
      JSON texts. */
  predicate IsDefaultMeta(meta: Option<Meta>) {
    meta.None? || EffectiveMeta(meta) == DefaultMeta
  }

  /** Metadata is the default exactly when it is absent, or has no `lib`,
      `html` or `css`, a type that is missing, empty or the CoffeeScript type,
      and libs that are missing or exactly the turtle library. */
  lemma IsDefaultMetaIff(meta: Option<Meta>)
    ensures IsDefaultMeta(meta) <==>
      meta.None?
      || (var m := meta.value;
          && m.lib.None? && m.html.None? && m.css.None?
          && (m.scriptType.None? || m.scriptType == Some("") || m.scriptType == Some(DefaultType))
          && (m.libs.None? || m.libs == Some([TurtleLib])))
  {
    if meta.Some? && EffectiveMeta(meta) == DefaultMeta {
      assert !KeptAsIs(meta);
    }
  }

  /** The default metadata is its own normal form. */
  lemma DefaultMetaIsEffective()
    ensures EffectiveMeta(Some(DefaultMeta)) == DefaultMeta
    ensures IsDefaultMeta(Some(NoMeta))
  {
  }
}
