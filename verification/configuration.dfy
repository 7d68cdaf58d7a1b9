/**
 The host's configuration as the client integrations read it: a flat map from
 colon-separated key paths ("Aspire:InfluxDB:Client:DisableTracing",
 "ConnectionStrings:influxdb") to values. Binding a section into a settings
 object is modelled as turning the section into a LAYER (the settings fields the
 section defines, with their values) and merging the layers in order; the
 settings record is then read off the merged layer.
 */
module Configuration {
  import opened Common

  /** A configuration value after the binder's conversion to the property's type. */
  datatype ConfigValue =
    | Text(text: string)
    | Flag(flag: bool)
    | Number(number: int)
    | TextList(items: seq<string>)

  /** Key path to value; the root of every `GetSection` and `GetConnectionString`. */
  type Config = map<string, ConfigValue>

  /** A source's contribution to a settings object: the fields it sets. */
  type Layer<F> = map<F, ConfigValue>

  const ConnectionStringsSection := "ConnectionStrings"

  /** The key path of a child section or key: `GetSection(parent).GetSection(child)`. */
  function SectionPath(parent: string, child: string): string {
    parent + ":" + child
  }

  /** `IConfiguration.GetConnectionString(name)`: the text under
      "ConnectionStrings:<name>", or null. */
  function GetConnectionString(config: Config, name: string): (r: Option<string>)
    ensures r.Some? <==> SectionPath(ConnectionStringsSection, name) in config
                         && config[SectionPath(ConnectionStringsSection, name)].Text?
    ensures r.Some? ==> config[SectionPath(ConnectionStringsSection, name)] == Text(r.value)
  {
    var key := SectionPath(ConnectionStringsSection, name);
    if key in config && config[key].Text? then Some(config[key].text) else None
  }

  /** `section.Bind(settings)` as a layer: each field among `fields` whose key
      under `path` is present with a value of the field's type. */
  function SectionLayer<F>(config: Config, path: string, fields: set<F>,
                           propertyName: F -> string,
                           accepts: (F, ConfigValue) -> bool): Layer<F>
  {
    map f | f in fields && SectionPath(path, propertyName(f)) in config
                        && accepts(f, config[SectionPath(path, propertyName(f))])
      :: config[SectionPath(path, propertyName(f))]
  }

  /** A section binds only values their property accepts. */
  lemma SectionLayerWellTyped<F(!new)>(config: Config, path: string, fields: set<F>,
                                       propertyName: F -> string, accepts: (F, ConfigValue) -> bool)
    ensures WellTyped(SectionLayer(config, path, fields, propertyName, accepts), accepts)
  {
  }

  /** Binding the layers one after another, first to last, as the source calls `Bind`. */
  function MergeFrom<F>(acc: Layer<F>, layers: seq<Layer<F>>): Layer<F>
    decreases |layers|
  {
    if |layers| == 0 then acc else MergeFrom(acc + layers[0], layers[1..])
  }

  function Merge<F>(layers: seq<Layer<F>>): Layer<F> {
    MergeFrom(map[], layers)
  }

  /** Reference definition of precedence: a field's value is the one given by
      the LAST layer that sets it. */
  function LastDefined<F>(layers: seq<Layer<F>>, f: F): Option<ConfigValue>
    decreases |layers|
  {
    if |layers| == 0 then None
    else if f in layers[|layers| - 1] then Some(layers[|layers| - 1][f])
    else LastDefined(layers[..|layers| - 1], f)
  }

  /** Every layer only holds values its fields accept. */
  ghost predicate WellTyped<F(!new)>(layer: Layer<F>, accepts: (F, ConfigValue) -> bool) {
    forall f :: f in layer ==> accepts(f, layer[f])
  }

  lemma {:induction false} MergeFromIsLastDefined<F>(acc: Layer<F>, layers: seq<Layer<F>>, f: F)
    ensures f in MergeFrom(acc, layers) <==> f in acc || LastDefined(layers, f).Some?
    ensures LastDefined(layers, f).Some? ==> MergeFrom(acc, layers)[f] == LastDefined(layers, f).value
    ensures f in acc && LastDefined(layers, f).None? ==> MergeFrom(acc, layers)[f] == acc[f]
    decreases |layers|
  {
    if |layers| > 0 {
      MergeFromIsLastDefined(acc + layers[0], layers[1..], f);
      LastDefinedCons(layers, f);
    }
  }

  /** Reading the precedence from the front: the first layer only decides when
      no later layer sets the field. */
  lemma {:induction false} LastDefinedCons<F>(layers: seq<Layer<F>>, f: F)
    requires |layers| > 0
    ensures LastDefined(layers, f) ==
            if LastDefined(layers[1..], f).Some? then LastDefined(layers[1..], f)
            else if f in layers[0] then Some(layers[0][f]) else None
    decreases |layers|
  {
    var n := |layers|;
    if n == 1 {
      assert layers[1..] == [];
    } else if f !in layers[n - 1] {
      LastDefinedCons(layers[..n - 1], f);
      assert layers[..n - 1][1..] == layers[1..][..n - 2];
      assert layers[..n - 1][0] == layers[0];
    } else {
      assert layers[1..][n - 2] == layers[n - 1];
    }
  }

  /** Merging the layers in order gives every field the value of the last layer
      that sets it; a field no layer sets stays unset. */
  lemma MergeIsLastDefined<F>(layers: seq<Layer<F>>, f: F)
    ensures f in Merge(layers) <==> LastDefined(layers, f).Some?
    ensures f in Merge(layers) ==> Merge(layers)[f] == LastDefined(layers, f).value
  {
    MergeFromIsLastDefined(map[], layers, f);
  }

  /** Merging layers that each hold only accepted values yields a layer that
      holds only accepted values, and each of its fields has the value of the
      last layer that sets it. */
  lemma MergeWellTyped<F(!new)>(layers: seq<Layer<F>>, accepts: (F, ConfigValue) -> bool)
    requires forall i :: 0 <= i < |layers| ==> WellTyped(layers[i], accepts)
    ensures WellTyped(Merge(layers), accepts)
    ensures forall f :: f in Merge(layers) <==> LastDefined(layers, f).Some?
    ensures forall f :: f in Merge(layers) ==> Merge(layers)[f] == LastDefined(layers, f).value
  {
    forall f
      ensures f in Merge(layers) <==> LastDefined(layers, f).Some?
      ensures f in Merge(layers) ==> Merge(layers)[f] == LastDefined(layers, f).value && accepts(f, Merge(layers)[f])
    {
      MergeIsLastDefined(layers, f);
      if f in Merge(layers) {
        LastDefinedFromSomeLayer(layers, f);
      }
    }
  }

  /** The last layer decides every field it sets; the others fall through to the earlier layers. */
  lemma LastDefinedLast<F>(layers: seq<Layer<F>>, f: F)
    requires |layers| > 0
    ensures f in layers[|layers| - 1] ==> LastDefined(layers, f) == Some(layers[|layers| - 1][f])
    ensures f !in layers[|layers| - 1] ==> LastDefined(layers, f) == LastDefined(layers[..|layers| - 1], f)
  {
  }

  /** A value the reference picks comes from one of the layers. */
  lemma {:induction false} LastDefinedFromSomeLayer<F>(layers: seq<Layer<F>>, f: F)
    requires LastDefined(layers, f).Some?
    ensures exists i :: 0 <= i < |layers| && f in layers[i] && layers[i][f] == LastDefined(layers, f).value
    decreases |layers|
  {
    var n := |layers|;
    if f !in layers[n - 1] {
      LastDefinedFromSomeLayer(layers[..n - 1], f);
      var i :| 0 <= i < n - 1 && f in layers[..n - 1][i] && layers[..n - 1][i][f] == LastDefined(layers, f).value;
      assert layers[i] == layers[..n - 1][i];
    }
  }
}
