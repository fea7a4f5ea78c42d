/**
 * The ACF "user" field type (`User::register_field_type`): its `graphql_type`
 * callback, which registers a connection to `User` instead of returning a
 * field type, and the connection's resolver, which turns the stored field
 * value into the list of user IDs the user query is restricted to and
 * ordered by.
 *
 * `FieldConfig` is not part of this model: the values its getters return are
 * inputs (`FieldContext`), and so is the raw value `resolve_field` returns.
 * The user query itself (`UserConnectionResolver::get_connection`) is
 * represented by the query arguments it is given.
 */
module UserFieldType {
  import opened Wrappers
  import opened PhpValue
  import opened PhpArray

  /** The ACF field type name the GraphQL field type is registered under. */
  const FieldTypeName: string := "user"

  /** Admin settings this field type does not offer: a user connection is never made non-null. */
  const ExcludedAdminFields: seq<string> := ["graphql_non_null"]

  /** The type the connection leads to. */
  const UserType: string := "User"

  /** What the callback returns when it registered a connection rather than naming a field type. */
  const ConnectionSentinel: string := "connection"

  /** What the field's config reports about the field. */
  datatype FieldContext = FieldContext(
    groupTypeName: Value,
    fieldName: Value,
    description: Value,
    acfField: Value,
    acfFieldGroup: Value)

  /** The config handed to `register_graphql_connections`; its resolver is `ResolveUserConnection`. */
  datatype ConnectionConfig = ConnectionConfig(
    description: Value,
    acfField: Value,
    acfFieldGroup: Value,
    toType: string,
    oneToOne: bool,
    allowFieldUnderscores: bool)

  /** What the `graphql_type` callback returns, and the connections it registered on the way. */
  datatype GraphqlTypeResult = GraphqlTypeResult(fieldType: Option<string>, connections: seq<ConnectionConfig>)

  /**
   * The `graphql_type` callback. Without an owning type name or a field
   * name it returns null and registers nothing; otherwise it registers one
   * one-to-many connection to `User` carrying the field's description and
   * ACF configs, and returns the sentinel `'connection'`.
   */
  function GraphqlType(ctx: FieldContext): (r: GraphqlTypeResult)
    ensures r.fieldType.None? <==> Empty(ctx.groupTypeName) || Empty(ctx.fieldName)
    ensures r.fieldType.None? ==> r.connections == []
    ensures r.fieldType.Some? ==>
      && r.fieldType.value == ConnectionSentinel
      && |r.connections| == 1
      && r.connections[0].toType == UserType
      && !r.connections[0].oneToOne
      && r.connections[0].allowFieldUnderscores
      && r.connections[0].description == ctx.description
      && r.connections[0].acfField == ctx.acfField
      && r.connections[0].acfFieldGroup == ctx.acfFieldGroup
  {
    if Empty(ctx.groupTypeName) || Empty(ctx.fieldName) then
      GraphqlTypeResult(None, [])
    else
      var connection := ConnectionConfig(ctx.description, ctx.acfField, ctx.acfFieldGroup, UserType, false, true);
      GraphqlTypeResult(Some(ConnectionSentinel), [connection])
  }

  /** A stored value that is not an array stands for a one-element list. */
  function UserListOf(value: Value): Entries {
    if value.Arr? then value.entries else [(IntKey(0), value)]
  }

  const IdKey: Key := StrKey("ID")

  /** `is_array($user) && isset($user['ID'])`: a user record with a non-null ID. */
  predicate HasId(user: Value) {
    user.Arr? && Get(user.entries, IdKey).Some? && Get(user.entries, IdKey).value != Null
  }

  /** The user ID one list element stands for: a record's `ID`, or the element itself, through `absint`. */
  function UserId(user: Value): nat {
    if HasId(user) then AbsInt(Get(user.entries, IdKey).value) else AbsInt(user)
  }

  /** The query arguments the resolver sets on the user query before running it. */
  datatype UserQuery = UserQuery(includeIds: seq<(Key, nat)>, orderby: string)

  /**
   * The connection's resolver: null for an empty stored value; otherwise a
   * user query restricted to the normalised IDs and ordered as they are
   * listed.
   */
  function ResolveUserConnection(value: Value): (q: Option<UserQuery>)
    ensures q.None? <==> Empty(value)
    ensures q.Some? ==> q.value.orderby == "include"
    ensures q.Some? ==> |q.value.includeIds| == |UserListOf(value)|
    ensures q.Some? ==> forall i | 0 <= i < |q.value.includeIds| :: q.value.includeIds[i].1 == UserId(UserListOf(value)[i].1)
  {
    if Empty(value) then None else Some(UserQuery(MapValues(UserListOf(value), UserId), "include"))
  }

  /** The PHP list `[$ids[0], $ids[1], ...]` of integers. */
  function IntList(ids: seq<nat>): Entries {
    seq(|ids|, i requires 0 <= i < |ids| => (IntKey(i), Int(ids[i])))
  }

  /** The PHP list of user records `[['ID' => $ids[0]], ...]`. */
  function UserRecords(ids: seq<nat>): Entries {
    seq(|ids|, i requires 0 <= i < |ids| => (IntKey(i), Arr([(IdKey, Int(ids[i]))])))
  }

  /** A stored list of user IDs is resolved to a query for exactly those users, in that order. */
  lemma ResolveIdList(ids: seq<nat>)
    requires ids != []
    ensures var q := ResolveUserConnection(Arr(IntList(ids)));
      q.Some? && Values(q.value.includeIds) == ids && q.value.orderby == "include"
  {
    var q := ResolveUserConnection(Arr(IntList(ids)));
    forall i | 0 <= i < |ids| ensures Values(q.value.includeIds)[i] == ids[i] {
      assert UserListOf(Arr(IntList(ids)))[i].1 == Int(ids[i]);
    }
  }

  /** A stored list of user records is resolved to a query for the users they name, in that order. */
  lemma ResolveRecordList(ids: seq<nat>)
    requires ids != []
    ensures var q := ResolveUserConnection(Arr(UserRecords(ids)));
      q.Some? && Values(q.value.includeIds) == ids
  {
    var q := ResolveUserConnection(Arr(UserRecords(ids)));
    forall i | 0 <= i < |ids| ensures Values(q.value.includeIds)[i] == ids[i] {
      var record := UserListOf(Arr(UserRecords(ids)))[i].1;
      assert record == Arr([(IdKey, Int(ids[i]))]);
      assert Get(record.entries, IdKey) == Some(Int(ids[i]));
    }
  }

  /** A single stored user, whatever its form, is a one-user query. */
  lemma ResolveScalar(value: Value)
    requires !Empty(value) && !value.Arr?
    ensures ResolveUserConnection(value) == Some(UserQuery([(IntKey(0), AbsInt(value))], "include"))
  {
    var single := [(IntKey(0), value)];
    assert single[1..] == [];
    assert MapValues(single, UserId) == [(IntKey(0), UserId(value))];
  }

  /** A single user ID stored as decimal text, as ACF saves it, resolves to a query for that user. */
  lemma ResolveDecimalId(n: nat)
    requires n > 0
    ensures ResolveUserConnection(Str(DecimalString(n))) == Some(UserQuery([(IntKey(0), n)], "include"))
  {
    DecimalStringValue(n);
    assert DigitsValue("0") == 0 by { assert "0"[..0] == ""; }
    AbsIntOfDecimalString(n);
    ResolveScalar(Str(DecimalString(n)));
  }

  /** `absint` discards the sign of a negative stored ID. */
  lemma NegativeIdIsMirrored(n: int)
    requires n < 0
    ensures ResolveUserConnection(Int(n)) == Some(UserQuery([(IntKey(0), -n)], "include"))
  {
    ResolveScalar(Int(n));
  }

  /** An admin setting is offered to this field type unless it is excluded. */
  predicate OffersAdminField(name: string) {
    name !in ExcludedAdminFields
  }

  /** The user field type is the one type without the non-null setting. */
  lemma NonNullSettingExcluded()
    ensures !OffersAdminField("graphql_non_null")
    ensures forall name | name != "graphql_non_null" :: OffersAdminField(name)
  {
  }
}
