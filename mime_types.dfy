/**
 * The built-in content-type fallback, consulted for a key only when the container's own
 * MIME registry knows nothing about it.
 */
module MimeTypes {
  import opened Common

  /**
   * getMimeType: an ordered chain of suffix tests; None stands for null (no content type).
   * The chain is the first-match lookup of FallbackTable.
   */
  function MimeType(name: string): (m: Option<string>)
    ensures m == LookupFrom(FallbackTable, 0, name)
  {
    var t := FallbackTable;
    assert LookupFrom(t, 4, name) == if EndsWith(name, ".md") then Some("text/markdown") else None;
    assert LookupFrom(t, 3, name) == if EndsWith(name, ".json") then Some("application/json") else LookupFrom(t, 4, name);
    assert LookupFrom(t, 2, name) == if EndsWith(name, ".yml") then Some("text/yaml") else LookupFrom(t, 3, name);
    assert LookupFrom(t, 1, name) == if EndsWith(name, ".yaml") then Some("text/yaml") else LookupFrom(t, 2, name);
    if EndsWith(name, ".properties") then Some("text/x-java-properties")
    else if EndsWith(name, ".yaml") || EndsWith(name, ".yml") then Some("text/yaml")
    else if EndsWith(name, ".json") then Some("application/json")
    else if EndsWith(name, ".md") then Some("text/markdown")
    else None
  }

  /** The same table as data: suffix and content type, in the order the chain tests them. */
  const FallbackTable: seq<(string, string)> := [
    (".properties", "text/x-java-properties"),
    (".yaml", "text/yaml"),
    (".yml", "text/yaml"),
    (".json", "application/json"),
    (".md", "text/markdown")
  ]

  /** First-match lookup of a name in a suffix table, from entry i on. */
  function LookupFrom(table: seq<(string, string)>, i: nat, name: string): (m: Option<string>)
    ensures m.None? <==> forall k | i <= k < |table| :: !EndsWith(name, table[k].0)
    ensures m.Some? ==> exists k | i <= k < |table| :: && EndsWith(name, table[k].0) && m.value == table[k].1
                                                       && forall j | i <= j < k :: !EndsWith(name, table[j].0)
    decreases |table| - i
  {
    if i >= |table| then None
    else if EndsWith(name, table[i].0) then Some(table[i].1)
    else LookupFrom(table, i + 1, name)
  }

  /** No name ends with two different suffixes of the table. */
  lemma {:induction false} SuffixesExclusive(name: string, i: nat, j: nat)
    requires i < |FallbackTable| && j < |FallbackTable| && i != j
    requires EndsWith(name, FallbackTable[i].0)
    ensures !EndsWith(name, FallbackTable[j].0)
  {
    var si, sj := FallbackTable[i].0, FallbackTable[j].0;
    if EndsWith(name, sj) {
      EndsWithAt(name, si, 0);
      EndsWithAt(name, sj, 0);
      EndsWithAt(name, si, 2);
      EndsWithAt(name, sj, 2);
    }
  }

  /** Since the suffixes exclude each other, the order of the tests does not matter: a type is chosen iff one of its suffixes matches. */
  lemma {:induction false} MimeTypeBySuffix(name: string, t: string)
    ensures MimeType(name) == Some(t) <==> exists i | 0 <= i < |FallbackTable| :: EndsWith(name, FallbackTable[i].0) && FallbackTable[i].1 == t
  {
    if i :| 0 <= i < |FallbackTable| && EndsWith(name, FallbackTable[i].0) && FallbackTable[i].1 == t {
      var m := LookupFrom(FallbackTable, 0, name);
      assert m.Some?;
      var k :| 0 <= k < |FallbackTable| && EndsWith(name, FallbackTable[k].0) && m.value == FallbackTable[k].1;
      if k != i {
        SuffixesExclusive(name, i, k);
      }
    }
  }

  /** The content type a GET or HEAD declares: the registry's answer, else the fallback table; None sets no header. */
  function ContentTypeFor(registry: Option<string>, key: string): (t: Option<string>)
    ensures registry.Some? ==> t == registry
    ensures registry.None? ==> t == MimeType(key)
    ensures t.None? <==> registry.None? && forall i | 0 <= i < |FallbackTable| :: !EndsWith(key, FallbackTable[i].0)
  {
    if registry.Some? then registry else MimeType(key)
  }
}
