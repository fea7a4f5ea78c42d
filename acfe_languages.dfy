/**
 * The ACF Extended "languages" field type (`AcfeLanguages`): a stored
 * language code, or list of codes, is resolved to the list of language
 * objects `acfe_get_language` finds for them. Whether that function exists,
 * and what it returns, are inputs: `lookup` is `None` when ACF Extended does
 * not provide it.
 */
module AcfeLanguages {
  import opened Wrappers
  import opened PhpValue
  import opened PhpArray

  /** The ACF field type name the GraphQL field type is registered under. */
  const FieldTypeName: string := "acfe_languages"

  /** A declared GraphQL type: here only the list form `['list_of' => T]` occurs. */
  datatype GraphqlTypeDecl = ListOf(ofType: string)

  /** The field resolves to a list of `ACFE_Language` objects. */
  const DeclaredType: GraphqlTypeDecl := ListOf("ACFE_Language")

  /** A stored value that is not an array stands for a one-element list. */
  function LanguageListOf(languages: Value): Entries {
    if languages.Arr? then languages.entries else [(IntKey(0), languages)]
  }

  /**
   * `resolve_languages`: null for an empty value, and null whenever there is
   * no lookup function; otherwise the truthy lookups of the listed codes,
   * under the positions the codes had.
   */
  function ResolveLanguages(languages: Value, lookup: Option<Value -> Value>): (r: Option<Entries>)
    ensures r.None? <==> Empty(languages) || lookup.None?
    ensures r.Some? ==> |r.value| <= |LanguageListOf(languages)|
    ensures r.Some? ==> forall i | 0 <= i < |r.value| :: Truthy(r.value[i].1)
    ensures r.Some? ==> forall k | k in Keys(r.value) :: k in Keys(LanguageListOf(languages))
    ensures r.Some? && lookup.Some? ==> forall e | e in r.value ::
      exists i | 0 <= i < |LanguageListOf(languages)| ::
        e == (LanguageListOf(languages)[i].0, lookup.value(LanguageListOf(languages)[i].1))
  {
    if Empty(languages) then None
    else
      var list := LanguageListOf(languages);
      if lookup.None? then None
      else
        var found := FilterTruthy(MapValues(list, lookup.value));
        FilterMapKeys(list, lookup.value);
        Some(found)
  }

  /**
   * Mapping and then filtering keeps only looked-up codes under their own
   * keys, and so introduces no key the list did not have.
   */
  lemma FilterMapKeys(list: Entries, f: Value -> Value)
    ensures forall e | e in FilterTruthy(MapValues(list, f)) ::
      exists i | 0 <= i < |list| :: e == (list[i].0, f(list[i].1))
    ensures forall k | k in Keys(FilterTruthy(MapValues(list, f))) :: k in Keys(list)
  {
    var mapped := MapValues(list, f);
    var found := FilterTruthy(mapped);
    forall e | e in found ensures exists i | 0 <= i < |list| :: e == (list[i].0, f(list[i].1)) {
      var j :| 0 <= j < |mapped| && mapped[j] == e;
      assert e == (list[j].0, f(list[j].1));
    }
    forall k | k in Keys(found) ensures k in Keys(list) {
      var i :| 0 <= i < |found| && Keys(found)[i] == k;
      assert found[i] in mapped;
      var j :| 0 <= j < |list| && mapped[j] == found[i];
      assert Keys(list)[j] == k;
    }
  }

  /**
   * For a stored list of codes, position `k` of the result holds the
   * language found for the code at position `k` of the list, exactly when
   * the lookup found one.
   */
  lemma ResolveLanguagesAt(languages: Entries, f: Value -> Value, k: Key)
    requires languages != [] && UniqueKeys(languages)
    ensures var r := ResolveLanguages(Arr(languages), Some(f));
      r.Some? && UniqueKeys(r.value) && Get(r.value, k) ==
        match Get(languages, k)
        case Some(code) => if Truthy(f(code)) then Some(f(code)) else None
        case None => None
  {
    var mapped := MapValues(languages, f);
    assert Keys(mapped) == Keys(languages);
    assert UniqueKeys(mapped) by {
      forall i, j | 0 <= i < j < |mapped| ensures mapped[i].0 != mapped[j].0 {
        assert mapped[i].0 == languages[i].0 && mapped[j].0 == languages[j].0;
      }
    }
    FilterUnique(mapped);
    MapValuesGet(languages, f, k);
    FilterTruthyGet(mapped, k);
  }

  /** A single stored code resolves to a one-element list, or to an empty list when it is not a language. */
  lemma ResolveSingleLanguage(code: Value, f: Value -> Value)
    requires !Empty(code) && !code.Arr?
    ensures ResolveLanguages(code, Some(f)) ==
      Some(if Truthy(f(code)) then [(IntKey(0), f(code))] else [])
  {
    var single := [(IntKey(0), code)];
    assert single[1..] == [];
    assert MapValues(single, f) == [(IntKey(0), f(code))];
    var mapped := [(IntKey(0), f(code))];
    assert mapped[1..] == [];
  }

  /** When every code is found, the result lists every language, under the codes' positions. */
  lemma ResolveAllFound(languages: Entries, f: Value -> Value)
    requires languages != []
    requires forall i | 0 <= i < |languages| :: Truthy(f(languages[i].1))
    ensures ResolveLanguages(Arr(languages), Some(f)) == Some(MapValues(languages, f))
  {
    var mapped := MapValues(languages, f);
    assert forall i | 0 <= i < |mapped| :: Truthy(mapped[i].1) by {
      forall i | 0 <= i < |mapped| ensures Truthy(mapped[i].1) {
        assert mapped[i].1 == f(languages[i].1);
      }
    }
    FilterTruthyKeepsTruthy(mapped);
    assert LanguageListOf(Arr(languages)) == languages;
  }
}
