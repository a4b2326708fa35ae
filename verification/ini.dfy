/**
 * The INI key/value store both the policy file and the selection index are kept in:
 * section names in file order, and each section's keys and values. Text-level INI
 * syntax is not modelled; `GetValue` and `SetValue` are the library calls the core makes.
 */
module Ini {
  import opened Wrappers

  datatype Document = Document(sections: seq<string>, values: map<string, map<string, string>>)

  /** A freshly constructed, empty parser. */
  const Empty: Document := Document([], map[])

  /** The value stored under `key` in `section`, if there is one (a null string in the library). */
  function GetValue(doc: Document, section: string, key: string): (r: Option<string>)
    ensures r.Some? <==> section in doc.values && key in doc.values[section]
    ensures r.Some? ==> r.value == doc.values[section][key]
  {
    if section in doc.values && key in doc.values[section] then Some(doc.values[section][key]) else None
  }

  /** Stores `value` under `key` in `section`, creating the section at the end of the file when it is new. */
  function SetValue(doc: Document, section: string, key: string, value: string): Document
  {
    var current := if section in doc.values then doc.values[section] else map[];
    Document(if section in doc.sections then doc.sections else doc.sections + [section],
             doc.values[section := current[key := value]])
  }

  /** A stored value is read back, every other value is kept, and a new section goes last. */
  lemma GetAfterSet(doc: Document, section: string, key: string, value: string)
    ensures GetValue(SetValue(doc, section, key, value), section, key) == Some(value)
    ensures forall s, k :: (s != section || k != key) ==>
              GetValue(SetValue(doc, section, key, value), s, k) == GetValue(doc, s, k)
    ensures SetValue(doc, section, key, value).sections
         == if section in doc.sections then doc.sections else doc.sections + [section]
  {
  }

  /** Setting a value in a section that exists changes that section only, by that one key. */
  lemma SetValueExisting(sections: seq<string>, values: map<string, map<string, string>>, section: string,
                         current: map<string, string>, key: string, value: string)
    requires section in sections
    ensures SetValue(Document(sections, values[section := current]), section, key, value)
         == Document(sections, values[section := current[key := value]])
  {
    assert values[section := current][section := current[key := value]] == values[section := current[key := value]];
  }

  /** `base` followed by one new section per key of `keys`, in that order, holding that key's contents. */
  function AppendSections(base: Document, keys: seq<string>, contents: map<string, map<string, string>>): Document
    requires forall k :: k in keys ==> k in contents
    decreases |keys|
  {
    if keys == [] then base
    else
      var doc := AppendSections(base, keys[..|keys| - 1], contents);
      var key := keys[|keys| - 1];
      Document(doc.sections + [key], doc.values[key := contents[key]])
  }

  /** The appended sections come after the base ones, each holding its contents, and the base values are kept. */
  lemma {:induction false} AppendSectionsContents(base: Document, keys: seq<string>, contents: map<string, map<string, string>>)
    requires forall k :: k in keys ==> k in contents
    ensures AppendSections(base, keys, contents).sections == base.sections + keys
    ensures forall k :: k in AppendSections(base, keys, contents).values <==> k in base.values || k in keys
    ensures forall k :: k in keys ==> AppendSections(base, keys, contents).values[k] == contents[k]
    ensures forall k :: k in base.values && k !in keys ==> AppendSections(base, keys, contents).values[k] == base.values[k]
    decreases |keys|
  {
    if keys != [] {
      var prefix := keys[..|keys| - 1];
      assert keys == prefix + [keys[|keys| - 1]];
      AppendSectionsContents(base, prefix, contents);
    }
  }

  /** `m` with the pairs stored in it one after the other, so a later pair wins over an earlier one with the same key. */
  function Assign(m: map<string, string>, pairs: seq<(string, string)>): map<string, string>
    decreases |pairs|
  {
    if pairs == [] then m
    else Assign(m, pairs[..|pairs| - 1])[pairs[|pairs| - 1].0 := pairs[|pairs| - 1].1]
  }

  /** The pairs set, in order, under `key` in `section` by successive `SetValue` calls. */
  function SetValues(doc: Document, section: string, pairs: seq<(string, string)>): Document
    decreases |pairs|
  {
    if pairs == [] then doc
    else
      var last := pairs[|pairs| - 1];
      SetValue(SetValues(doc, section, pairs[..|pairs| - 1]), section, last.0, last.1)
  }

  /** Storing one more pair. */
  lemma AssignStep(m: map<string, string>, pairs: seq<(string, string)>, k: nat)
    requires k < |pairs|
    ensures Assign(m, pairs[..k + 1]) == Assign(m, pairs[..k])[pairs[k].0 := pairs[k].1]
  {
    assert pairs[..k + 1][..k] == pairs[..k];
  }

  /** Setting pairs in a section that exists stores them in that section and changes nothing else. */
  lemma {:induction false} SetValuesExisting(sections: seq<string>, values: map<string, map<string, string>>,
                                            section: string, current: map<string, string>, pairs: seq<(string, string)>)
    requires section in sections
    ensures SetValues(Document(sections, values[section := current]), section, pairs)
         == Document(sections, values[section := Assign(current, pairs)])
    decreases |pairs|
  {
    if pairs != [] {
      var prefix := pairs[..|pairs| - 1];
      var last := pairs[|pairs| - 1];
      SetValuesExisting(sections, values, section, current, prefix);
      SetValueExisting(sections, values, section, Assign(current, prefix), last.0, last.1);
    }
  }

  /** Setting pairs in a new section appends the section, holding exactly those pairs. */
  lemma {:induction false} SetValuesNew(doc: Document, section: string, pairs: seq<(string, string)>)
    requires section !in doc.sections && section !in doc.values && pairs != []
    ensures SetValues(doc, section, pairs)
         == Document(doc.sections + [section], doc.values[section := Assign(map[], pairs)])
    decreases |pairs|
  {
    var prefix := pairs[..|pairs| - 1];
    var last := pairs[|pairs| - 1];
    if prefix == [] {
      assert SetValues(doc, section, prefix) == doc;
    } else {
      SetValuesNew(doc, section, prefix);
      SetValueExisting(doc.sections + [section], doc.values, section, Assign(map[], prefix), last.0, last.1);
    }
  }

  /** Setting the pairs of one more new section extends the appended sections by that section. */
  lemma AppendSectionsNext(base: Document, keys: seq<string>, contents: map<string, map<string, string>>,
                           key: string, pairs: seq<(string, string)>)
    requires forall k :: k in keys ==> k in contents
    requires key !in keys && key !in base.sections && key !in base.values
    requires key in contents && contents[key] == Assign(map[], pairs) && pairs != []
    ensures SetValues(AppendSections(base, keys, contents), key, pairs) == AppendSections(base, keys + [key], contents)
  {
    AppendSectionsContents(base, keys, contents);
    SetValuesNew(AppendSections(base, keys, contents), key, pairs);
    assert (keys + [key])[..|keys|] == keys;
  }
}
