/**
 * The GraphQL settings shown on each ACF field (`Settings::add_field_settings`)
 * and the two reusable setting configs `get_graphql_non_null_field_config`
 * and `get_graphql_resolve_type_field_config`. Rendering a setting
 * (`acf_render_field_setting`) is modelled as appending the merged config,
 * with its `global` flag, to the list of rendered settings.
 */
module AdminFieldSettings {
  import opened Wrappers
  import opened PhpValue
  import opened PhpArray

  /** One call of `acf_render_field_setting($field, $config, $global)`. */
  datatype RenderedSetting = RenderedSetting(config: Entries, global: bool)

  const ConditionsKey: Key := StrKey("conditions")
  const UiKey: Key := StrKey("ui")
  const GlobalKey: Key := StrKey("global")

  /** Show a setting only while the field's "Show in GraphQL" toggle is on. */
  function ShowInGraphqlCondition(): Value {
    Arr([(StrKey("field"), Str("show_in_graphql")), (StrKey("operator"), Str("==")), (StrKey("value"), Str("1"))])
  }

  /** The defaults every field setting's own config is merged over. */
  function DefaultSettingConfig(): Entries {
    [(ConditionsKey, ShowInGraphqlCondition()), (UiKey, Bool(true)), (GlobalKey, Bool(true))]
  }

  /** The field type the settings are built for: before ACF 6.1 every field gets the marker type '<6.1'. */
  function EffectiveFieldType(fieldType: Option<string>, acfBefore61: bool): Option<string> {
    if acfBefore61 then Some("<6.1") else fieldType
  }

  /** `empty($field_type)` for a `?string`. */
  predicate EmptyFieldType(fieldType: Option<string>) {
    fieldType.None? || Empty(Str(fieldType.value))
  }

  /** The message telling that a field type has no GraphQL mapping; its empty conditions show it unconditionally. */
  function NotSupportedNotice(fieldType: string): Entries {
    [
      (StrKey("type"), Str("message")),
      (StrKey("label"), Str("Not supported in the GraphQL Schema")),
      (StrKey("instructions"), Str("The \"" + fieldType + "\" Field Type is not set up to map to the GraphQL Schema.")),
      (ConditionsKey, Arr([]))
    ]
  }

  /** The single setting of a field type that has no GraphQL mapping. */
  function NotSupportedSettings(fieldType: string): Value {
    Arr([(StrKey("not_supported"), Arr(NotSupportedNotice(fieldType)))])
  }

  /**
   * The admin settings of a field type: what its registered GraphQL field
   * type returns for this field, or the not-supported message.
   * `adminSettingsOf` maps each registered type to those settings.
   */
  function AdminSettingsFor(fieldType: string, adminSettingsOf: map<string, Value>): Value {
    if fieldType in adminSettingsOf then adminSettingsOf[fieldType] else NotSupportedSettings(fieldType)
  }

  /** A setting config is rendered when it is a non-empty array. */
  predicate Renderable(config: Value) {
    config.Arr? && !Empty(config)
  }

  /** The configs, in order, of the settings that are rendered. */
  function RenderableConfigs(settings: Entries): (cs: seq<Entries>)
    ensures |cs| <= |settings|
  {
    if settings == [] then []
    else
      var last := settings[|settings| - 1];
      RenderableConfigs(settings[..|settings| - 1]) + (if Renderable(last.1) then [last.1.entries] else [])
  }

  lemma RenderableConfigsSnoc(settings: Entries, e: (Key, Value))
    ensures RenderableConfigs(settings + [e]) ==
      RenderableConfigs(settings) + (if Renderable(e.1) then [e.1.entries] else [])
  {
    assert (settings + [e])[..|settings|] == settings;
  }

  function MergedConfig(config: Entries): Entries {
    ArrayMerge(DefaultSettingConfig(), config)
  }

  /** What is rendered for one setting config: the merged config and its `(bool)` global flag. */
  function Render(config: Entries): RenderedSetting {
    var merged := MergedConfig(config);
    RenderedSetting(merged, Truthy(GetOr(merged, GlobalKey, Null)))
  }

  function RenderAll(configs: seq<Entries>): (r: seq<RenderedSetting>)
    ensures |r| == |configs|
  {
    seq(|configs|, i requires 0 <= i < |configs| => Render(configs[i]))
  }

  lemma RenderAllSnoc(configs: seq<Entries>, c: Entries)
    ensures RenderAll(configs + [c]) == RenderAll(configs) + [Render(c)]
  {
  }

  /** One pass of the settings loop: a renderable setting adds its rendering, any other adds nothing. */
  lemma RenderStep(prefix: Entries, e: (Key, Value))
    ensures RenderAll(RenderableConfigs(prefix + [e])) ==
      if Renderable(e.1) then RenderAll(RenderableConfigs(prefix)) + [Render(e.1.entries)]
      else RenderAll(RenderableConfigs(prefix))
  {
    RenderableConfigsSnoc(prefix, e);
    if Renderable(e.1) {
      RenderAllSnoc(RenderableConfigs(prefix), e.1.entries);
    }
  }

  /** The settings rendered for the admin settings value of a field type. */
  function RenderedFor(settings: Value): seq<RenderedSetting> {
    if Empty(settings) || !settings.Arr? then [] else RenderAll(RenderableConfigs(settings.entries))
  }

  /**
   * Render the GraphQL settings of one field: nothing for an empty field
   * type; otherwise every non-empty array among the type's settings, merged
   * over the defaults, in order.
   */
  method AddFieldSettings(fieldType: Option<string>, acfBefore61: bool, adminSettingsOf: map<string, Value>)
    returns (rendered: seq<RenderedSetting>)
    ensures EmptyFieldType(EffectiveFieldType(fieldType, acfBefore61)) ==> rendered == []
    ensures !EmptyFieldType(EffectiveFieldType(fieldType, acfBefore61)) ==>
      rendered == RenderedFor(AdminSettingsFor(EffectiveFieldType(fieldType, acfBefore61).value, adminSettingsOf))
  {
    rendered := [];
    var ft := fieldType;
    if acfBefore61 {
      ft := Some("<6.1");
    }
    assert ft == EffectiveFieldType(fieldType, acfBefore61);
    if ft.None? || Empty(Str(ft.value)) {
      return;
    }
    var settings: Value;
    if ft.value in adminSettingsOf {
      settings := adminSettingsOf[ft.value];
    } else {
      settings := NotSupportedSettings(ft.value);
    }
    assert settings == AdminSettingsFor(ft.value, adminSettingsOf);
    if !Empty(settings) && settings.Arr? {
      var entries := settings.entries;
      for i := 0 to |entries|
        invariant rendered == RenderAll(RenderableConfigs(entries[..i]))
      {
        assert entries[..i + 1] == entries[..i] + [entries[i]];
        RenderStep(entries[..i], entries[i]);
        var (_, config) := entries[i];
        if Empty(config) || !config.Arr? {
          continue;
        }
        var merged := ArrayMerge(DefaultSettingConfig(), config.entries);
        var global := Truthy(GetOr(merged, GlobalKey, Null));
        assert RenderedSetting(merged, global) == Render(config.entries);
        rendered := rendered + [RenderedSetting(merged, global)];
      }
      assert entries[..|entries|] == entries;
    }
  }

  /** Rendering keeps the order of the settings: it distributes over concatenation. */
  lemma {:induction false} RenderableConfigsConcat(a: Entries, b: Entries)
    ensures RenderableConfigs(a + b) == RenderableConfigs(a) + RenderableConfigs(b)
    decreases |b|
  {
    if b == [] {
      assert a + b == a;
    } else {
      var front := b[..|b| - 1];
      assert (a + b)[..|a + b| - 1] == a + front;
      RenderableConfigsConcat(a, front);
    }
  }

  /** When every setting is a non-empty array, each one is rendered, in order. */
  lemma {:induction false} RenderableConfigsAll(settings: Entries)
    requires forall i | 0 <= i < |settings| :: Renderable(settings[i].1)
    ensures RenderableConfigs(settings) ==
      seq(|settings|, i requires 0 <= i < |settings| && Renderable(settings[i].1) => settings[i].1.entries)
  {
    if settings != [] {
      var front := settings[..|settings| - 1];
      RenderableConfigsAll(front);
      assert settings == front + [settings[|settings| - 1]];
      RenderableConfigsSnoc(front, settings[|settings| - 1]);
    }
  }

  lemma DefaultSettingConfigWellFormed()
    ensures StringKeyed(DefaultSettingConfig()) && UniqueKeys(DefaultSettingConfig())
  {
  }

  /**
   * A rendered config is the defaults overlaid by the setting's own config:
   * a key the setting has takes the setting's value, every other key keeps
   * its default, the defaults come first and in their order, and the result
   * is a proper PHP array.
   */
  lemma MergedConfigOverlaysDefaults(config: Entries, k: Key)
    requires UniqueKeys(config) && k.StrKey?
    ensures Get(MergedConfig(config), k) ==
      if k in Keys(config) then Get(config, k) else Get(DefaultSettingConfig(), k)
    ensures UniqueKeys(MergedConfig(config))
    ensures |MergedConfig(config)| >= 3 && Keys(MergedConfig(config))[..3] == Keys(DefaultSettingConfig())
  {
    DefaultSettingConfigWellFormed();
    ArrayMergeStringKey(DefaultSettingConfig(), config, k);
    ArrayMergeUniqueKeys(DefaultSettingConfig(), config);
    ArrayMergeKeepsDefaultOrder(DefaultSettingConfig(), config);
  }

  /** The global flag is on unless the setting itself sets `global` to a falsy value. */
  lemma RenderGlobalFlag(config: Entries)
    requires UniqueKeys(config)
    ensures Render(config).config == MergedConfig(config)
    ensures Render(config).global == (GlobalKey !in Keys(config) || Truthy(Get(config, GlobalKey).value))
  {
    MergedConfigOverlaysDefaults(config, GlobalKey);
  }

  /**
   * A field type with no GraphQL mapping renders exactly one setting: the
   * not-supported message, whose empty `conditions` replaces the default
   * show-in-GraphQL condition, so it is shown whatever that toggle says.
   */
  lemma UnsupportedTypeRendersNotice(fieldType: string, adminSettingsOf: map<string, Value>)
    requires fieldType !in adminSettingsOf
    ensures |RenderedFor(AdminSettingsFor(fieldType, adminSettingsOf))| == 1
    ensures var r := RenderedFor(AdminSettingsFor(fieldType, adminSettingsOf))[0];
      && Get(r.config, ConditionsKey) == Some(Arr([]))
      && Get(r.config, StrKey("type")) == Some(Str("message"))
      && Get(r.config, UiKey) == Some(Bool(true))
      && r.global
  {
    NotSupportedRendersOnce(fieldType);
    var notice := NotSupportedNotice(fieldType);
    NoticeWellFormed(fieldType);
    NoticeEntries(fieldType);
    MergedConfigOverlaysDefaults(notice, ConditionsKey);
    MergedConfigOverlaysDefaults(notice, StrKey("type"));
    MergedConfigOverlaysDefaults(notice, UiKey);
    RenderGlobalFlag(notice);
  }

  /** The not-supported settings are one non-empty array, so exactly the notice is rendered. */
  lemma NotSupportedRendersOnce(fieldType: string)
    ensures RenderedFor(NotSupportedSettings(fieldType)) == [Render(NotSupportedNotice(fieldType))]
  {
    var entries := NotSupportedSettings(fieldType).entries;
    assert entries == entries[..0] + [entries[0]];
    RenderableConfigsSnoc(entries[..0], entries[0]);
    assert RenderableConfigs(entries) == [NotSupportedNotice(fieldType)];
  }

  lemma NoticeWellFormed(fieldType: string)
    ensures UniqueKeys(NotSupportedNotice(fieldType))
    ensures UiKey !in Keys(NotSupportedNotice(fieldType)) && GlobalKey !in Keys(NotSupportedNotice(fieldType))
  {
    assert Keys(NotSupportedNotice(fieldType)) == [StrKey("type"), StrKey("label"), StrKey("instructions"), ConditionsKey];
  }

  /** The notice is a message with empty conditions. */
  lemma NoticeEntries(fieldType: string)
    ensures Get(NotSupportedNotice(fieldType), ConditionsKey) == Some(Arr([]))
    ensures Get(NotSupportedNotice(fieldType), StrKey("type")) == Some(Str("message"))
  {
    NoticeWellFormed(fieldType);
    GetUnique(NotSupportedNotice(fieldType), 0);
    GetUnique(NotSupportedNotice(fieldType), 3);
  }

  // The reusable setting configs.

  const NonNullName: Value := Str("graphql_non_null")

  function NonNullDefaults(): Entries {
    [
      (StrKey("label"), Str("GraphQL NonNull?")),
      (StrKey("instructions"), Str("Whether the field should be non-null in the GraphQL Schema.")),
      (StrKey("name"), NonNullName),
      (StrKey("key"), NonNullName),
      (StrKey("type"), Str("true_false")),
      (StrKey("default_value"), Bool(false))
    ]
  }

  /** `get_graphql_non_null_field_config($override)`. */
  function NonNullFieldConfig(override: Entries): Entries {
    ArrayMerge(NonNullDefaults(), override)
  }

  function ResolveTypeChoices(): Entries {
    [
      (StrKey("string"), Str("String")),
      (StrKey("int"), Str("Int")),
      (StrKey("float"), Str("Float")),
      (StrKey("list:string"), Str("[String] (List of Strings)")),
      (StrKey("list:int"), Str("[Int] (List of Integers)")),
      (StrKey("list:float"), Str("[Float] (List of Floats)"))
    ]
  }

  function ResolveTypeDefaults(): Entries {
    [
      (StrKey("label"), Str("GraphQL Resolve Type")),
      (StrKey("instructions"), Str("The GraphQL Type the field will show in the Schema as and resolve to.")),
      (StrKey("name"), Str("graphql_resolve_type")),
      (StrKey("key"), Str("graphql_resolve_type")),
      (StrKey("type"), Str("select")),
      (StrKey("multiple"), Bool(false)),
      (StrKey("ui"), Bool(false)),
      (StrKey("allow_null"), Bool(false)),
      (StrKey("default_value"), Str("list:string")),
      (StrKey("choices"), Arr(ResolveTypeChoices()))
    ]
  }

  /** `get_graphql_resolve_type_field_config($override)`. */
  function ResolveTypeFieldConfig(override: Entries): Entries {
    ArrayMerge(ResolveTypeDefaults(), override)
  }

  lemma NonNullDefaultsWellFormed()
    ensures StringKeyed(NonNullDefaults()) && UniqueKeys(NonNullDefaults())
  {
  }

  /** The non-null setting with no override: named and keyed `graphql_non_null`, a toggle that is off by default. */
  lemma NonNullFieldConfigDefaults()
    ensures Get(NonNullFieldConfig([]), StrKey("name")) == Some(NonNullName)
    ensures Get(NonNullFieldConfig([]), StrKey("key")) == Some(NonNullName)
    ensures Get(NonNullFieldConfig([]), StrKey("type")) == Some(Str("true_false"))
    ensures Get(NonNullFieldConfig([]), StrKey("default_value")) == Some(Bool(false))
  {
    var d := NonNullDefaults();
    NonNullDefaultsWellFormed();
    ArrayMergeNothing(d);
    GetUnique(d, 2);
    GetUnique(d, 3);
    GetUnique(d, 4);
    GetUnique(d, 5);
  }

  /** Override keys replace the non-null defaults; every other key keeps its default. */
  lemma NonNullFieldConfigOverride(override: Entries, k: Key)
    requires UniqueKeys(override) && k.StrKey?
    ensures Get(NonNullFieldConfig(override), k) ==
      if k in Keys(override) then Get(override, k) else Get(NonNullDefaults(), k)
    ensures UniqueKeys(NonNullFieldConfig(override))
  {
    NonNullDefaultsWellFormed();
    ArrayMergeStringKey(NonNullDefaults(), override, k);
    ArrayMergeUniqueKeys(NonNullDefaults(), override);
  }

  lemma ResolveTypeDefaultsWellFormed()
    ensures StringKeyed(ResolveTypeDefaults()) && UniqueKeys(ResolveTypeDefaults())
  {
  }

  /** The resolve-type setting with no override: its default, a list of strings, is one of its six choices. */
  lemma ResolveTypeFieldConfigDefaults()
    ensures var r := ResolveTypeFieldConfig([]);
      && Get(r, StrKey("default_value")) == Some(Str("list:string"))
      && Get(r, StrKey("choices")) == Some(Arr(ResolveTypeChoices()))
      && Get(r, StrKey("name")) == Some(Str("graphql_resolve_type"))
  {
    var d := ResolveTypeDefaults();
    ResolveTypeDefaultsWellFormed();
    ArrayMergeNothing(d);
    GetUnique(d, 2);
    GetUnique(d, 8);
    GetUnique(d, 9);
  }

  /** The six resolve types on offer are distinct, and the default is among them. */
  lemma ResolveTypeChoicesOfferDefault()
    ensures |ResolveTypeChoices()| == 6 && UniqueKeys(ResolveTypeChoices())
    ensures StrKey("list:string") in Keys(ResolveTypeChoices())
  {
    assert Keys(ResolveTypeChoices())[3] == StrKey("list:string");
  }

  /** Override keys replace the resolve-type defaults; every other key keeps its default. */
  lemma ResolveTypeFieldConfigOverride(override: Entries, k: Key)
    requires UniqueKeys(override) && k.StrKey?
    ensures Get(ResolveTypeFieldConfig(override), k) ==
      if k in Keys(override) then Get(override, k) else Get(ResolveTypeDefaults(), k)
    ensures UniqueKeys(ResolveTypeFieldConfig(override))
  {
    ResolveTypeDefaultsWellFormed();
    ArrayMergeStringKey(ResolveTypeDefaults(), override, k);
    ArrayMergeUniqueKeys(ResolveTypeDefaults(), override);
  }
}
