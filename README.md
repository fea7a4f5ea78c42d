# wpgraphql-acf: admin columns, field settings, user and language fields

This project is a Dafny model of four small data transformations in the WPGraphQL for ACF plugin. The plugin exposes Advanced Custom Fields (ACF) field groups in a WordPress GraphQL schema.

- **Admin column headers** (`Settings::wpgraphql_admin_table_column_headers`). The ACF field-group list table gets three columns: "GraphQL Type", "GraphQL Interfaces" and "GraphQL Locations". They go right after ACF's `acf-location` column, or at the end when that column is absent. This is a loop over a PHP array, modelled as a method proved against a function of its input.
- **Field settings** (`Settings::add_field_settings`). Each GraphQL setting of a field type is merged over fixed defaults with `array_merge` and then rendered. An unsupported field type renders one "not supported" message instead. This is also a loop, modelled as a method. The two reusable configs `get_graphql_non_null_field_config` and `get_graphql_resolve_type_field_config` are single `array_merge` calls, modelled as functions.
- **User field type** (`User::register_field_type`). Its `graphql_type` callback registers a connection to `User` and returns the sentinel `'connection'`. Its resolver turns the stored value into the list of user IDs the user query is restricted to and ordered by.
- **ACF Extended languages field type** (`AcfeLanguages`). `resolve_languages` looks up each stored language code and drops the codes that find nothing.

PHP values are the datatype `PhpValue.Value`. A PHP array is an ordered sequence of (key, value) entries (`PhpArray.Entries`). The module `PhpArray` models:
- assignment `$a[$k] = $v` (`Put`);
- `array_merge`, with integer keys renumbered (`ArrayMerge`);
- `array_map` and `array_filter` (`MapValues`, `FilterTruthy`), which both the user resolver and the languages resolver apply.

`PhpValue` models `empty()`, the `(bool)` and `(int)` casts, and WordPress's `absint()`.

Calls into code this model does not include become inputs:
- The admin settings a registered field type returns (`Utils::get_graphql_field_type(...)->get_admin_field_settings`) are the map `adminSettingsOf`. A type absent from the map is unregistered.
- Whether ACF is older than 6.1 is the flag `acfBefore61`.
- The values `FieldConfig` reports about a field are the record `UserFieldType.FieldContext`.
- The raw value `resolve_field` returns is an argument.
- `acfe_get_language`, and whether it exists, is `lookup: Option<Value -> Value>`.
- `acf_render_field_setting` is modelled as appending a `RenderedSetting` (the merged config and its global flag) to the list of rendered settings.
- The user query (`UserConnectionResolver`) is modelled by the query arguments it receives (`UserQuery`).

## Model

| member | source | states |
|---|---|---|
| AdminColumns.AdminTableColumnHeaders | src/Admin/Settings.php:467-490 | The loop returns the header row `ColumnHeaders` defines. When the input has distinct keys and no GraphQL column yet, that row is the input with the three GraphQL columns spliced in right after `acf-location`, or appended when it is absent. |
| AdminColumns.ColumnHeadersSpliced | src/Admin/Settings.php:472-487 | Without pre-existing GraphQL columns, the filter's result equals the spliced row: the prefix up to and including `acf-location`, then the type, interfaces and locations columns in that order, then the rest. With no `acf-location`, the three columns follow the whole input. |
| AdminColumns.LoopStateSpliced | src/Admin/Settings.php:472-481 | After any prefix of the input, the loop has built that prefix with the three columns inserted after `acf-location` when it has been seen. The `$is_added` flag is set exactly when it has been seen. |
| AdminColumns.StepSpliced | src/Admin/Settings.php:473-480 | One loop pass over a new, non-GraphQL column extends the spliced row by that column. When the column is `acf-location`, the three GraphQL columns follow it and the flag is set. |
| AdminColumns.SplicedPrefixSnoc | src/Admin/Settings.php:473-481 | A column other than `acf-location` lands at the end of the row built so far. |
| AdminColumns.SplicedPrefixLocation | src/Admin/Settings.php:473-480 | The first time `acf-location` is seen, the three GraphQL columns follow it directly. |
| PhpArray.InsertAfterSnoc | src/Admin/Settings.php:472-481 | Inserting entries after a key, then appending an entry with another key, is the same as appending first and inserting afterwards. |
| AdminColumns.ColumnHeadersAddsThree | src/Admin/Settings.php:470-487 | The three columns are added once only. A row without them grows by exactly three columns. |
| AdminColumns.ColumnHeadersKeepsColumns | src/Admin/Settings.php:472-487 | For every input row with distinct keys, even one already holding GraphQL columns: the result has distinct keys, every non-GraphQL column keeps its label, and all three GraphQL columns are present. |
| AdminColumns.LoopStateKeeps | src/Admin/Settings.php:472-481 | The loop invariant behind the previous row. It holds after every prefix: distinct keys, non-GraphQL columns copied, and the flag true exactly when `acf-location` was seen, with the GraphQL columns present. |
| AdminColumns.StepKeeps | src/Admin/Settings.php:473-480 | One loop pass preserves that invariant. |
| AdminColumns.ColumnHeadersLabelsAtEnd | src/Admin/Settings.php:483-487 | Without `acf-location`, the fallback branch gives the three columns their GraphQL labels. |
| AdminColumns.AddGraphqlColumnsGet | src/Admin/Settings.php:476-478 | After the three assignments, each GraphQL column holds its label, and every other column reads as before. |
| AdminColumns.AddGraphqlColumnsAppends | src/Admin/Settings.php:484-486 | When none of the three keys is present, the assignments append the columns in order type, interfaces, locations. |
| AdminColumns.AddGraphqlColumnsUnique | src/Admin/Settings.php:476-478 | The assignments keep the keys distinct. |
| PhpArray.PutGet | src/Admin/Settings.php:473 | After `$columns[$name] = $value`, that key reads `$value`, and every other key reads as before. |
| PhpArray.PutInPlace | src/Admin/Settings.php:473 | Assigning an existing key keeps every key where it was and changes no other entry. |
| PhpArray.ArrayMergeStringKey | src/Admin/Settings.php:367 | With `array_merge`, a string key takes the later array's value when that array has the key, otherwise the earlier array's value. |
| PhpArray.ArrayMergeUniqueKeys | src/Admin/Settings.php:367 | `array_merge` always yields distinct keys, with integer keys renumbered. |
| PhpArray.ArrayMergeKeepsDefaultOrder | src/Admin/Settings.php:367 | The keys of a string-keyed first array stay at the front of the result, in their order. |
| PhpArray.ArrayMergeNothing | src/Admin/Settings.php:384-393 | Merging an empty override over string-keyed defaults gives the defaults unchanged. |
| AdminFieldSettings.AddFieldSettings | src/Admin/Settings.php:320-375 | Nothing is rendered when the field type is empty. Before ACF 6.1 the type is `'<6.1'`. Otherwise one setting is rendered per non-empty array among the type's settings, in order: its config merged over the defaults, with the `(bool)` of the merged `global`. An unregistered type gets the not-supported settings. |
| AdminFieldSettings.RenderableConfigsConcat | src/Admin/Settings.php:349-353 | Skipping empty and non-array settings keeps the rest in order: it distributes over concatenation. |
| AdminFieldSettings.RenderableConfigsAll | src/Admin/Settings.php:349-353 | When every setting is a non-empty array, every one is rendered, in order. |
| AdminFieldSettings.MergedConfigOverlaysDefaults | src/Admin/Settings.php:355-367 | Each string key the setting has takes the setting's value. Every other string key keeps its default: the show-in-GraphQL condition, `ui` true and `global` true. The defaults come first, in order, and the keys are distinct. |
| AdminFieldSettings.RenderGlobalFlag | src/Admin/Settings.php:363-370 | A setting is rendered as global unless it sets `global` to a falsy value itself. |
| AdminFieldSettings.UnsupportedTypeRendersNotice | src/Admin/Settings.php:334-342 | An unregistered type renders exactly one setting: a `message` whose empty `conditions` replaces the default condition, with `ui` and `global` on. |
| AdminFieldSettings.NoticeEntries | src/Admin/Settings.php:336-341 | The not-supported notice is a `message`, and its `conditions` are empty. |
| AdminFieldSettings.NoticeWellFormed | src/Admin/Settings.php:336-341 | The notice's keys are distinct, and it sets neither `ui` nor `global`. |
| AdminFieldSettings.NotSupportedRendersOnce | src/Admin/Settings.php:334-353 | The not-supported settings hold exactly one renderable config, so exactly the notice is rendered. |
| AdminFieldSettings.RenderStep | src/Admin/Settings.php:349-370 | One loop pass renders the current setting exactly when it is a non-empty array, and otherwise adds nothing. |
| AdminFieldSettings.NonNullFieldConfigDefaults | src/Admin/Settings.php:384-393 | With no override, the non-null config is named and keyed `graphql_non_null`, is a `true_false` toggle, and defaults to false. |
| AdminFieldSettings.NonNullFieldConfigOverride | src/Admin/Settings.php:384-393 | Override keys replace the non-null defaults, every other key keeps its default, and the keys stay distinct. |
| AdminFieldSettings.ResolveTypeFieldConfigDefaults | src/Admin/Settings.php:402-422 | With no override, the resolve-type config is named `graphql_resolve_type`, defaults to `list:string`, and offers the six choices. |
| AdminFieldSettings.ResolveTypeChoicesOfferDefault | src/Admin/Settings.php:412-420 | The six choices are distinct, and the default `list:string` is one of them. |
| AdminFieldSettings.ResolveTypeFieldConfigOverride | src/Admin/Settings.php:402-422 | Override keys replace the resolve-type defaults, every other key keeps its default, and the keys stay distinct. |
| UserFieldType.GraphqlType | src/FieldType/User.php:19-62 | Null, with no connection registered, exactly when the owning type name or the field name is empty. Otherwise one connection is registered: to `User`, not one-to-one, underscores allowed, carrying the field's description and ACF configs. The return value is then the sentinel `'connection'`. |
| UserFieldType.UserId | src/FieldType/User.php:46-51 | The definition of the `array_map` callback: `absint` of the element's `ID` when it is an array with a non-null `ID`, and `absint` of the element otherwise. `ResolveUserConnection` applies it with `PhpArray.MapValues`, and the lemmas `ResolveScalar`, `ResolveIdList` and `ResolveRecordList` hold its properties. |
| UserFieldType.ResolveUserConnection | src/FieldType/User.php:36-55 | Null exactly when the stored value is empty. Otherwise the query is restricted to the normalised IDs of the value, wrapped into a list when it is not an array, and ordered by `include`. |
| PhpArray.MapValuesConcat | src/FieldType/User.php:46-51 | Mapping distributes over concatenation, so the normalised IDs follow the stored order. |
| UserFieldType.ResolveIdList | src/FieldType/User.php:42-55 | A stored list of IDs resolves to a query for exactly those IDs, in that order. |
| UserFieldType.ResolveRecordList | src/FieldType/User.php:46-49 | A stored list of user records resolves to a query for the IDs they name, in that order. |
| UserFieldType.ResolveScalar | src/FieldType/User.php:42-50 | A non-empty scalar value resolves to a one-ID query for its `absint`. |
| UserFieldType.ResolveDecimalId | src/FieldType/User.php:42-50 | A positive ID stored as decimal text resolves to a query for that ID. |
| UserFieldType.NegativeIdIsMirrored | src/FieldType/User.php:48-50 | `absint` turns a negative stored ID into its absolute value. |
| UserFieldType.NonNullSettingExcluded | src/FieldType/User.php:18 | The user field type declares exactly one admin setting excluded: `graphql_non_null`. |
| PhpValue.IntOfDigits | src/FieldType/User.php:48-50 | The `(int)` cast that `absint` applies reads any non-empty run of decimal digits as the number those digits denote. |
| PhpValue.IntOfNegativeDigits | src/FieldType/User.php:48-50 | The cast reads a minus sign followed by a run of digits as the negated number. |
| PhpValue.IntOfDecimalString | src/FieldType/User.php:48-50 | The cast reads the decimal text PHP prints for a non-negative integer back as that integer. |
| PhpValue.IntOfNegativeDecimalString | src/FieldType/User.php:48-50 | The cast reads the text PHP prints for a negative integer back as that integer. |
| PhpValue.AbsIntOfDecimalString | src/FieldType/User.php:48-50 | `absint` of the decimal text of a non-negative ID is the ID. |
| AcfeLanguages.ResolveLanguages | src/ThirdParty/AcfExtended/FieldType/AcfeLanguages.php:12-28 | Null exactly when the value is empty or no lookup function exists. Otherwise every entry of the result is truthy and is the lookup of some listed code, under that code's key. There are no more entries than listed codes, and every key is a position of the list the value stands for. |
| PhpArray.MapValues | src/ThirdParty/AcfExtended/FieldType/AcfeLanguages.php:25-27 | The mapping keeps the length, keys and order, and applies the callback to every value. |
| PhpArray.FilterTruthy | src/ThirdParty/AcfExtended/FieldType/AcfeLanguages.php:25 | The filter keeps only entries of its input, all truthy, and never more than the input holds. |
| PhpArray.FilterUnique | src/ThirdParty/AcfExtended/FieldType/AcfeLanguages.php:25 | Filtering an array with distinct keys gives an array with distinct keys. |
| AcfeLanguages.FilterMapKeys | src/ThirdParty/AcfExtended/FieldType/AcfeLanguages.php:25-27 | After mapping then filtering, every entry is the lookup of some listed code under that code's key, so no new key appears. |
| PhpArray.FilterTruthyConcat | src/ThirdParty/AcfExtended/FieldType/AcfeLanguages.php:25 | Filtering distributes over concatenation, so kept entries stay in input order. |
| PhpArray.FilterTruthyKeepsTruthy | src/ThirdParty/AcfExtended/FieldType/AcfeLanguages.php:25 | Filtering drops nothing when every value is truthy. |
| PhpArray.FilterTruthyGet | src/ThirdParty/AcfExtended/FieldType/AcfeLanguages.php:25 | In an array with distinct keys, a key survives the filter exactly when its value is truthy, and it keeps that value. |
| PhpArray.MapValuesGet | src/ThirdParty/AcfExtended/FieldType/AcfeLanguages.php:25-27 | After the mapping, each key of the input holds the lookup of its value, and nothing else is a key. |
| AcfeLanguages.ResolveLanguagesAt | src/ThirdParty/AcfExtended/FieldType/AcfeLanguages.php:25-27 | For a stored list with distinct keys, the result has distinct keys. A position holds a language exactly when the code there finds one, and then it holds that language. Every other position is absent. |
| AcfeLanguages.ResolveSingleLanguage | src/ThirdParty/AcfExtended/FieldType/AcfeLanguages.php:17-27 | A single non-empty code resolves to a one-entry list at position 0, or to an empty list when the lookup finds nothing. |
| AcfeLanguages.ResolveAllFound | src/ThirdParty/AcfExtended/FieldType/AcfeLanguages.php:21-27 | When every code finds a language, the result is the full mapped list. |
| PhpArray.Put | src/Admin/Settings.php:473 | `$a[$k] = $v`: an existing key is replaced where it stands and the length stays the same. A new key is appended at the end. Read-back and positions are stated by `PutGet` and `PutInPlace`. |
| PhpArray.ArrayMerge | src/Admin/Settings.php:367 | The definition of `array_merge`, also used at lines 385 and 403: string keys of the later array are assigned over the earlier one, and integer keys are renumbered and appended. Its properties are stated by `ArrayMergeStringKey`, `ArrayMergeUniqueKeys`, `ArrayMergeKeepsDefaultOrder` and `ArrayMergeNothing`. |
| PhpValue.Empty | src/FieldType/User.php:38 | The definition of `empty()`, also used at AcfeLanguages.php line 13 and Settings.php lines 328, 347 and 351: true for null, false, 0, `""`, `"0"` and the empty array. `GraphqlType`, `ResolveUserConnection`, `ResolveLanguages` and `AddFieldSettings` state their empty cases with it. |
| PhpValue.ToInt | src/FieldType/User.php:48-50 | The definition of the `(int)` cast that `absint` applies. Its reading of decimal text is stated by `IntOfDigits`, `IntOfNegativeDigits`, `IntOfDecimalString` and `IntOfNegativeDecimalString`. |
| PhpValue.AbsInt | src/FieldType/User.php:48-50 | The definition of `absint`, the absolute value of the `(int)` cast. Stated by `AbsIntOfDecimalString`, `ResolveDecimalId` and `NegativeIdIsMirrored`. |
| AdminColumns.ColumnHeaders | src/Admin/Settings.php:467-490 | The definition of the filter's result as the fold of the loop body, followed by the fallback append. The method `AdminTableColumnHeaders` returns it, and `ColumnHeadersSpliced`, `ColumnHeadersKeepsColumns`, `ColumnHeadersAddsThree` and `ColumnHeadersLabelsAtEnd` state what it is. |
| AdminColumns.Spliced | src/Admin/Settings.php:470-487 | The independent reference for the intended row: the input with the three columns inserted after `acf-location`, or appended. `ColumnHeadersSpliced` proves the filter meets it. |
| AdminFieldSettings.Render | src/Admin/Settings.php:355-370 | One `acf_render_field_setting` call: the config merged over the defaults, and the `(bool)` of its `global`. Stated by `MergedConfigOverlaysDefaults` and `RenderGlobalFlag`. |
| AdminFieldSettings.RenderedFor | src/Admin/Settings.php:347-372 | The settings rendered for a settings value: none unless it is a non-empty array, otherwise one render per renderable config, in order. Stated by `RenderableConfigsConcat`, `RenderableConfigsAll`, `RenderStep` and `NotSupportedRendersOnce`. |
| AdminFieldSettings.NonNullFieldConfig | src/Admin/Settings.php:384-393 | The definition of the non-null config: the override merged over fixed defaults. Stated by `NonNullFieldConfigDefaults` and `NonNullFieldConfigOverride`. |
| AdminFieldSettings.ResolveTypeFieldConfig | src/Admin/Settings.php:402-422 | The definition of the resolve-type config: the override merged over fixed defaults. Stated by `ResolveTypeFieldConfigDefaults`, `ResolveTypeChoicesOfferDefault` and `ResolveTypeFieldConfigOverride`. |

## Left out

- The hook and rendering code of `Settings` is not modelled: `init`, `setup_field_settings`, the meta boxes, the field-group form, the enqueued scripts, `graphql_types_ajax_callback` and `wpgraphql_admin_table_columns_html`. It registers WordPress/ACF hooks and prints HTML, JSON or JavaScript. Where it has logic, that logic lives in the location-rule engine and the type registry, which are not part of this model.
- `__()` localisation is the identity. Two long help texts are abbreviated to their first sentence: the non-null setting's instructions and the not-supported notice's instructions, which still carry the field type. No property depends on their wording.
- AdminFieldSettings.AddFieldSettings: does not model the `$field` argument passed on to `acf_render_field_setting`, which only forwards it. What rendering does with a config is outside the model.
- ACF version detection (`defined('ACF_VERSION')` with `version_compare`) is the boolean input `acfBefore61`.
- PhpValue.ToInt: models the `(int)` cast of strings as leading whitespace, an optional sign and a run of decimal digits. It does not model exponent forms: PHP 7.1 and later read `"1e3"` as 1000, where the model gives 1. It does not model saturation at the 64-bit integer bounds either. Floats and objects are not among the modelled values.
- UserFieldType.ResolveUserConnection: stops at the query arguments `include` and `orderby`. Running the user query (`UserConnectionResolver::get_connection`) is outside the model.
- UserFieldType.NonNullSettingExcluded: states only which setting the user field type declares excluded. Applying `exclude_admin_fields` is the registry's job, and the registry is not part of this model.
- The languages field's resolver closure just passes the raw value to `resolve_languages`, so `AcfeLanguages.ResolveLanguages` covers it. The registration call is reduced to the constants `AcfeLanguages.FieldTypeName` and `AcfeLanguages.DeclaredType` (a list of `ACFE_Language`). Likewise the user field type is reduced to `UserFieldType.FieldTypeName` and `UserFieldType.ExcludedAdminFields`.
- The tests' browser helpers and the expected-type tests are not modelled: they check naming logic in the registry, which is not part of this model.
- PHP stores a decimal integer string key such as `"5"` as the integer key 5. `PhpValue.Key` assumes keys are already in that normalised form, so `UniqueKeys` does not treat `StrKey("5")` and `IntKey(5)` as the same key.
