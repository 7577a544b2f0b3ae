/** The two ways the character module pulls an identifier out of a string:
    the id at the end of a resource link, and the value part of a
    `value;suffix` composite key. */
module Links {
  import opened Strings

  /** `href.split('/')[-1].split('?')[0]`: the last path segment of a link,
      cut at its first `?`. */
  function LinkId(href: string): (r: string)
    ensures '/' !in r && '?' !in r
    ensures r <= Last(href, '/')
    ensures r == Last(href, '/') || Last(href, '/')[|r|] == '?'
  {
    First(Last(href, '/'), '?')
  }

  /** `value.split(';')[0]`: a composite key cut at its first `;`. */
  function Truncate(value: string): (r: string)
    ensures ';' !in r
    ensures r <= value
    ensures r == value || value[|r|] == ';'
  {
    First(value, ';')
  }

  /** The id of `<anything>/<id>?<query>` is `<id>`. */
  lemma LinkIdWithQuery(prefix: string, id: string, query: string)
    requires '/' !in id && '?' !in id && '/' !in query
    ensures LinkId(prefix + "/" + id + "?" + query) == id
  {
    assert prefix + "/" + id + "?" + query == prefix + ['/'] + (id + ['?'] + query);
    LastOfSuffix(prefix, id + ['?'] + query, '/');
    FirstOfPrefix(id, query, '?');
  }

  /** The id of `<anything>/<id>` is `<id>`. */
  lemma LinkIdPlain(prefix: string, id: string)
    requires '/' !in id && '?' !in id
    ensures LinkId(prefix + "/" + id) == id
  {
    assert prefix + "/" + id == prefix + ['/'] + id;
    LastOfSuffix(prefix, id, '/');
  }

  /** `value;suffix` truncates to `value`. */
  lemma TruncateComposite(value: string, suffix: string)
    requires ';' !in value
    ensures Truncate(value + ";" + suffix) == value
  {
    assert value + ";" + suffix == value + [';'] + suffix;
    FirstOfPrefix(value, suffix, ';');
  }

  /** A key without `;` is kept whole, so truncating twice is truncating once. */
  lemma TruncateIdempotent(value: string)
    ensures ';' !in value ==> Truncate(value) == value
    ensures Truncate(Truncate(value)) == Truncate(value)
  {
  }
}
