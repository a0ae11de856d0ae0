/** CrossRef's `message` object mapped to the fixed twelve-key metadata record
    (`_normalize_metadata`). Values keep their JSON form; Python's None is JNull. */
module CrossRefMetadata {
  import opened Wrappers
  import opened PyJson

  datatype Author = Author(firstName: Json, lastName: Json)

  /** The normalised record; `workType` is the `type` key. */
  datatype Metadata = Metadata(
    title: Json,
    authors: seq<Author>,
    doi: Json,
    url: Json,
    journal: Json,
    issn: Json,
    issue: Json,
    volume: Json,
    year: Json,
    publisher: Json,
    workType: Json,
    language: Json)

  /** The date fields searched for a year, highest priority first. */
  const DATE_FIELDS: seq<string> := ["published-print", "published-online", "created"]

  /** `date-parts` when a date field has none: `[[None]]`. */
  const NO_DATE_PARTS: Json := JArr([JArr([JNull])])

  /** `v` is what `get_first(data.get(key, []))` promises: None for an absent key or a
      falsy value, the first element of a non-empty array. */
  predicate IsFirstOf(m: map<string, Json>, key: string, v: Json) {
    && (key !in m || !Truthy(m[key]) ==> v == JNull)
    && (key in m && m[key].JArr? && m[key].items != [] ==> v == m[key].items[0])
  }

  /** `get_first(lst)`: `lst[0] if lst and len(lst) > 0 else None`. */
  function GetFirst(lst: Json): (r: Result<Json, PyError>)
    ensures lst.JArr? && lst.items != [] ==> r == Ok(lst.items[0])
    ensures !Truthy(lst) ==> r == Ok(JNull)
    ensures r.Err? <==> Truthy(lst) && !lst.JArr? && !lst.JStr?
  {
    if !Truthy(lst) then Ok(JNull)
    else if lst.JInt? || lst.JBool? then Err(TypeError)  // len() of an int or a bool
    else Index0(lst)
  }

  function FirstOf(m: map<string, Json>, key: string): (r: Result<Json, PyError>)
    ensures r.Ok? ==> IsFirstOf(m, key, r.value)
    ensures key !in m || !Truthy(m[key]) ==> r == Ok(JNull)
  {
    GetFirst(GetOr(m, key, JArr([])))
  }

  /** `{'firstName': author.get('given'), 'lastName': author.get('family')}`. */
  function AuthorFrom(entry: map<string, Json>): (a: Author) {
    Author(GetOr(entry, "given", JNull), GetOr(entry, "family", JNull))
  }

  /** The authors of a list of entries, in order; an entry that is not a dict has no
      `.get`, an AttributeError. */
  function MapAuthors(entries: seq<Json>): (r: Result<seq<Author>, PyError>) {
    if entries == [] then Ok([])
    else
      var init :- MapAuthors(entries[..|entries| - 1]);
      var last := entries[|entries| - 1];
      if last.JObj? then Ok(init + [AuthorFrom(last.fields)]) else Err(AttributeError)
  }

  /** The authors are the entries mapped one for one, in order; the mapping fails,
      with an AttributeError, exactly when some entry is not a dict. */
  lemma {:induction false} AuthorsInOrder(entries: seq<Json>)
    ensures MapAuthors(entries).Ok? <==> forall i :: 0 <= i < |entries| ==> entries[i].JObj?
    ensures MapAuthors(entries).Err? ==> MapAuthors(entries).error == AttributeError
    ensures MapAuthors(entries).Ok? ==>
              && |MapAuthors(entries).value| == |entries|
              && forall i :: 0 <= i < |entries| ==> MapAuthors(entries).value[i] == AuthorFrom(entries[i].fields)
  {
    if entries != [] {
      var init := entries[..|entries| - 1];
      AuthorsInOrder(init);
      assert forall i :: 0 <= i < |init| ==> init[i] == entries[i];
    }
  }

  /** The loop `for author in data.get('author', [])`: a list gives its entries; a
      non-empty str yields one-character strs and a non-empty dict yields its keys, and
      neither has `.get`; None, bool and int are not iterable. */
  function AuthorsOf(v: Json): (r: Result<seq<Author>, PyError>) {
    match v
    case JArr(items) => MapAuthors(items)
    case JStr(s) => if s == "" then Ok([]) else Err(AttributeError)
    case JObj(fields) => if fields == map[] then Ok([]) else Err(AttributeError)
    case _ => Err(TypeError)
  }

  /** What one date field yields: the first component of its first date-part when that
      is truthy, else None. A field that is not a dict has no `.get`; `[0]` on an empty
      list is an IndexError. */
  function YearOf(holder: Json): (r: Result<Option<Json>, PyError>)
    ensures r.Ok? && r.value.Some? ==> Truthy(r.value.value)
  {
    if !holder.JObj? then Err(AttributeError)
    else
      var parts :- Index0(GetOr(holder.fields, "date-parts", NO_DATE_PARTS));
      if !Truthy(parts) then Ok(None)
      else
        var first :- Index0(parts);
        if Truthy(first) then Ok(Some(first)) else Ok(None)
  }

  /** The priority search: the year of the first present field that yields one. */
  function FindYear(m: map<string, Json>, fields: seq<string>): (r: Result<Json, PyError>)
    ensures r.Ok? ==> r.value == JNull || Truthy(r.value)
  {
    if fields == [] then Ok(JNull)
    else if fields[0] !in m then FindYear(m, fields[1..])
    else
      var found :- YearOf(m[fields[0]]);
      match found
      case Some(year) => Ok(year)
      case None => FindYear(m, fields[1..])
  }

  /** The whole normalisation, in the order Python evaluates it: the dict literal
      (title, container-title, ISSN), then the authors, then the year. */
  function Normalized(data: Json): (r: Result<Metadata, PyError>)
    ensures !data.JObj? ==> r == Err(AttributeError)
    ensures r.Ok? ==> data.JObj?
    ensures r.Ok? ==> IsFirstOf(data.fields, "title", r.value.title)
    ensures r.Ok? ==> IsFirstOf(data.fields, "container-title", r.value.journal)
    ensures r.Ok? ==> IsFirstOf(data.fields, "ISSN", r.value.issn)
    ensures r.Ok? ==> r.value.year == JNull || Truthy(r.value.year)
  {
    if !data.JObj? then Err(AttributeError)
    else
      var m := data.fields;
      var title :- FirstOf(m, "title");
      var journal :- FirstOf(m, "container-title");
      var issn :- FirstOf(m, "ISSN");
      var authors :- AuthorsOf(GetOr(m, "author", JArr([])));
      var year :- FindYear(m, DATE_FIELDS);
      Ok(Metadata(
        title, authors, GetOr(m, "DOI", JNull), GetOr(m, "URL", JNull), journal, issn,
        GetOr(m, "issue", JNull), GetOr(m, "volume", JNull), year,
        GetOr(m, "publisher", JNull), GetOr(m, "type", JNull), GetOr(m, "language", JNull)))
  }

  /** `_normalize_metadata`: builds the record, appends the authors one by one, then
      searches the date fields and stops at the first year found. */
  method NormalizeMetadata(data: Json) returns (r: Result<Metadata, PyError>)
    ensures r == Normalized(data)
  {
    if !data.JObj? {
      return Err(AttributeError);
    }
    var m := data.fields;
    var title := FirstOf(m, "title");
    if title.Err? {
      return Err(title.error);
    }
    var journal := FirstOf(m, "container-title");
    if journal.Err? {
      return Err(journal.error);
    }
    var issn := FirstOf(m, "ISSN");
    if issn.Err? {
      return Err(issn.error);
    }

    var authors: seq<Author> := [];
    var source := GetOr(m, "author", JArr([]));
    match source {
      case JArr(items) =>
        var i := 0;
        while i < |items|
          invariant 0 <= i <= |items|
          invariant MapAuthors(items[..i]) == Ok(authors)
        {
          assert items[..i + 1][..i] == items[..i];
          var entry := items[i];
          if !entry.JObj? {
            AuthorsInOrder(items);
            return Err(AttributeError);
          }
          authors := authors + [AuthorFrom(entry.fields)];
          i := i + 1;
        }
        assert items[..|items|] == items;
      case JStr(s) =>
        if s != "" {
          return Err(AttributeError);
        }
      case JObj(fields) =>
        if fields != map[] {
          return Err(AttributeError);
        }
      case _ =>
        return Err(TypeError);
    }
    assert AuthorsOf(source) == Ok(authors);

    var year := JNull;
    var k := 0;
    while k < |DATE_FIELDS|
      invariant 0 <= k <= |DATE_FIELDS|
      invariant FindYear(m, DATE_FIELDS) == FindYear(m, DATE_FIELDS[k..])
    {
      var field := DATE_FIELDS[k];
      assert DATE_FIELDS[k..][1..] == DATE_FIELDS[k + 1..];
      if field in m {
        var holder := m[field];
        if !holder.JObj? {
          return Err(AttributeError);
        }
        var parts := Index0(GetOr(holder.fields, "date-parts", NO_DATE_PARTS));
        if parts.Err? {
          return Err(parts.error);
        }
        if Truthy(parts.value) {
          var first := Index0(parts.value);
          if first.Err? {
            return Err(first.error);
          }
          if Truthy(first.value) {
            year := first.value;
            break;
          }
        }
      }
      k := k + 1;
    }
    assert FindYear(m, DATE_FIELDS) == Ok(year);

    r := Ok(Metadata(
      title.value, authors, GetOr(m, "DOI", JNull), GetOr(m, "URL", JNull), journal.value,
      issn.value, GetOr(m, "issue", JNull), GetOr(m, "volume", JNull), year,
      GetOr(m, "publisher", JNull), GetOr(m, "type", JNull), GetOr(m, "language", JNull)));
  }

  // ---------------------------------------------------------------------------
  // The year search

  /** A date field that the search passes over: absent, or present without a year. */
  predicate Skipped(m: map<string, Json>, field: string) {
    field !in m || YearOf(m[field]) == Ok(None)
  }

  /** `fields[k]` is the first field that yields a year, and that year is `year`. */
  predicate YieldsFirstAt(m: map<string, Json>, fields: seq<string>, k: int, year: Json) {
    && 0 <= k < |fields|
    && fields[k] in m
    && YearOf(m[fields[k]]) == Ok(Some(year))
    && forall j :: 0 <= j < k ==> Skipped(m, fields[j])
  }

  /** The year found is the one of the first field that yields one, and later fields
      never override it; the search finds some year exactly when some field yields one. */
  lemma {:induction false} YearOfFirstYieldingField(m: map<string, Json>, fields: seq<string>, year: Json)
    ensures FindYear(m, fields) == Ok(year) && year != JNull <==> exists k :: YieldsFirstAt(m, fields, k, year)
  {
    if fields != [] {
      var rest := fields[1..];
      YearOfFirstYieldingField(m, rest, year);
      if exists k :: YieldsFirstAt(m, fields, k, year) {
        var k :| YieldsFirstAt(m, fields, k, year);
        if k > 0 {
          assert Skipped(m, fields[0]);
          assert YieldsFirstAt(m, rest, k - 1, year) by {
            forall j | 0 <= j < k - 1 ensures Skipped(m, rest[j]) {
              assert rest[j] == fields[j + 1];
            }
          }
        }
      }
      if FindYear(m, fields) == Ok(year) && year != JNull {
        if Skipped(m, fields[0]) {
          var k :| YieldsFirstAt(m, rest, k, year);
          assert YieldsFirstAt(m, fields, k + 1, year) by {
            forall j | 0 <= j < k + 1 ensures Skipped(m, fields[j]) {
              if j > 0 {
                assert fields[j] == rest[j - 1];
              }
            }
          }
        } else {
          assert YieldsFirstAt(m, fields, 0, year);
        }
      }
    }
  }

  /** No year (None) exactly when every field is passed over. */
  lemma {:induction false} NoYieldingFieldNoYear(m: map<string, Json>, fields: seq<string>)
    ensures FindYear(m, fields) == Ok(JNull) <==> forall j :: 0 <= j < |fields| ==> Skipped(m, fields[j])
  {
    if fields != [] {
      var rest := fields[1..];
      NoYieldingFieldNoYear(m, rest);
      assert forall j :: 0 <= j < |rest| ==> rest[j] == fields[j + 1];
      if forall j :: 0 <= j < |rest| ==> Skipped(m, rest[j]) {
        assert forall j :: 1 <= j < |fields| ==> Skipped(m, fields[j]) by {
          forall j | 1 <= j < |fields| ensures Skipped(m, fields[j]) {
            assert fields[j] == rest[j - 1];
          }
        }
      }
    }
  }

  /** When `published-print` yields a year, that is the record's year, whatever
      `published-online` and `created` hold. */
  lemma PrintYearWins(data: Json, year: Json)
    requires data.JObj? && Normalized(data).Ok?
    requires "published-print" in data.fields && YearOf(data.fields["published-print"]) == Ok(Some(year))
    ensures Normalized(data).value.year == year
  {
    var m := data.fields;
    assert YieldsFirstAt(m, DATE_FIELDS, 0, year);
    YearOfFirstYieldingField(m, DATE_FIELDS, year);
  }

  // ---------------------------------------------------------------------------
  // The record as a whole

  /** The authors of the record are the `author` entries mapped one for one, in order,
      and an absent `author` array gives no authors. */
  lemma RecordAuthors(data: Json)
    requires Normalized(data).Ok?
    ensures var authors := Normalized(data).value.authors;
      && ("author" !in data.fields ==> authors == [])
      && ("author" in data.fields && data.fields["author"].JArr? ==>
            var entries := data.fields["author"].items;
            && |authors| == |entries|
            && forall i :: 0 <= i < |entries| ==> entries[i].JObj? && authors[i] == AuthorFrom(entries[i].fields))
  {
    var m := data.fields;
    if "author" in m && m["author"].JArr? {
      AuthorsInOrder(m["author"].items);
    }
  }

  /** Keys copied unchanged into the record (or None when absent). */
  lemma RecordPassThrough(data: Json)
    requires Normalized(data).Ok?
    ensures var md := Normalized(data).value; var m := data.fields;
      && md.doi == GetOr(m, "DOI", JNull)
      && md.url == GetOr(m, "URL", JNull)
      && md.issue == GetOr(m, "issue", JNull)
      && md.volume == GetOr(m, "volume", JNull)
      && md.publisher == GetOr(m, "publisher", JNull)
      && md.workType == GetOr(m, "type", JNull)
      && md.language == GetOr(m, "language", JNull)
  {
  }

  /** An array key of a CrossRef record: absent, null or a list. */
  predicate ArrayOrAbsent(m: map<string, Json>, key: string) {
    key !in m || m[key].JNull? || m[key].JArr?
  }

  /** A date field as CrossRef sends it: a dict whose `date-parts`, when present, is a
      non-empty list whose first element is a list (or null). */
  predicate DateFieldShaped(v: Json) {
    && v.JObj?
    && ("date-parts" !in v.fields ||
        var parts := v.fields["date-parts"];
        parts.JArr? && parts.items != [] && (parts.items[0].JArr? || parts.items[0].JNull?))
  }

  /** The keys normalised before the year search have CrossRef's shapes. */
  predicate RecordFieldsShaped(m: map<string, Json>) {
    && ArrayOrAbsent(m, "title")
    && ArrayOrAbsent(m, "container-title")
    && ArrayOrAbsent(m, "ISSN")
    && ("author" !in m ||
        (m["author"].JArr? && forall i :: 0 <= i < |m["author"].items| ==> m["author"].items[i].JObj?))
  }

  predicate CrossRefShaped(data: Json) {
    && data.JObj?
    && RecordFieldsShaped(data.fields)
    && forall f :: f in DATE_FIELDS && f in data.fields ==> DateFieldShaped(data.fields[f])
  }

  lemma {:induction false} ShapedDatesFindYear(m: map<string, Json>, fields: seq<string>)
    requires forall j :: 0 <= j < |fields| && fields[j] in m ==> DateFieldShaped(m[fields[j]])
    ensures FindYear(m, fields).Ok?
  {
    if fields != [] {
      ShapedDatesFindYear(m, fields[1..]);
    }
  }

  /** Absent fields and empty arrays give None or no authors, never an error: a record
      with CrossRef's shapes always normalises. */
  lemma ShapedRecordNormalizes(data: Json)
    requires CrossRefShaped(data)
    ensures Normalized(data).Ok?
  {
    var m := data.fields;
    if "author" in m {
      AuthorsInOrder(m["author"].items);
    }
    ShapedDatesFindYear(m, DATE_FIELDS);
  }

  /** The search reaches `fields[k]`, a date object whose `date-parts` is an explicit
      empty list: every earlier field is passed over. */
  predicate EmptyDatePartsAt(m: map<string, Json>, fields: seq<string>, k: int) {
    && 0 <= k < |fields|
    && fields[k] in m
    && m[fields[k]].JObj?
    && "date-parts" in m[fields[k]].fields
    && m[fields[k]].fields["date-parts"] == JArr([])
    && forall j :: 0 <= j < k ==> Skipped(m, fields[j])
  }

  /** On reaching an empty `date-parts`, `[0]` raises IndexError and the search stops. */
  lemma {:induction false} EmptyDatePartsStopSearch(m: map<string, Json>, fields: seq<string>, k: int)
    requires EmptyDatePartsAt(m, fields, k)
    ensures FindYear(m, fields) == Err(IndexError)
    decreases k
  {
    if k == 0 {
      assert YearOf(m[fields[0]]) == Err(IndexError);
    } else {
      assert Skipped(m, fields[0]);
      var rest := fields[1..];
      assert forall j :: 0 <= j < k - 1 ==> rest[j] == fields[j + 1];
      assert EmptyDatePartsAt(m, rest, k - 1);
      EmptyDatePartsStopSearch(m, rest, k - 1);
    }
  }

  /** An explicit `date-parts: []` in the first date field the search reaches makes
      normalisation raise IndexError instead of giving no year, whatever other keys the
      date object carries. */
  lemma EmptyDatePartsRaise(data: Json, k: int)
    requires data.JObj? && RecordFieldsShaped(data.fields)
    requires EmptyDatePartsAt(data.fields, DATE_FIELDS, k)
    ensures Normalized(data) == Err(IndexError)
  {
    var m := data.fields;
    if "author" in m {
      AuthorsInOrder(m["author"].items);
    }
    EmptyDatePartsStopSearch(m, DATE_FIELDS, k);
  }

  /** `title: []`, `author: []` and no `container-title` give None, no authors and None. */
  lemma EmptyArraysAreSafe(data: Json)
    requires data.JObj? && Normalized(data).Ok?
    requires "title" in data.fields && data.fields["title"] == JArr([])
    requires "author" in data.fields && data.fields["author"] == JArr([])
    requires "container-title" !in data.fields
    ensures Normalized(data).value.title == JNull
    ensures Normalized(data).value.authors == []
    ensures Normalized(data).value.journal == JNull
  {
  }

  lemma SingleAuthor(fields: map<string, Json>)
    ensures MapAuthors([JObj(fields)]).Ok? && MapAuthors([JObj(fields)]).value == [AuthorFrom(fields)]
  {
    var entries := [JObj(fields)];
    assert entries[..|entries| - 1] == [];
  }

  /** The worked example of a CrossRef `message`. */
  const STUDY_AUTHOR: map<string, Json> := map["given" := JStr("A"), "family" := JStr("Smith")]
  const STUDY_DATE: Json := JObj(map["date-parts" := JArr([JArr([JInt(2020), JInt(5)])])])
  const STUDY_MESSAGE: map<string, Json> := map[
    "title" := JArr([JStr("A Study")]),
    "author" := JArr([JObj(STUDY_AUTHOR)]),
    "DOI" := JStr("10.1234/example.doi"),
    "published-print" := STUDY_DATE]

  lemma StudyParts()
    ensures AuthorsOf(STUDY_MESSAGE["author"]) == Ok([Author(JStr("A"), JStr("Smith"))])
    ensures FindYear(STUDY_MESSAGE, DATE_FIELDS) == Ok(JInt(2020))
  {
    SingleAuthor(STUDY_AUTHOR);
    assert YearOf(STUDY_DATE) == Ok(Some(JInt(2020)));
  }

  lemma NormalizedFromParts(m: map<string, Json>, title: Json, journal: Json, issn: Json, authors: seq<Author>, year: Json)
    requires FirstOf(m, "title") == Ok(title)
    requires FirstOf(m, "container-title") == Ok(journal)
    requires FirstOf(m, "ISSN") == Ok(issn)
    requires AuthorsOf(GetOr(m, "author", JArr([]))) == Ok(authors)
    requires FindYear(m, DATE_FIELDS) == Ok(year)
    ensures Normalized(JObj(m)) == Ok(Metadata(
              title, authors, GetOr(m, "DOI", JNull), GetOr(m, "URL", JNull), journal, issn,
              GetOr(m, "issue", JNull), GetOr(m, "volume", JNull), year,
              GetOr(m, "publisher", JNull), GetOr(m, "type", JNull), GetOr(m, "language", JNull)))
  {
  }

  lemma StudyAbsentKeys()
    ensures "container-title" !in STUDY_MESSAGE && "ISSN" !in STUDY_MESSAGE
    ensures "URL" !in STUDY_MESSAGE && "issue" !in STUDY_MESSAGE && "volume" !in STUDY_MESSAGE
    ensures "publisher" !in STUDY_MESSAGE && "type" !in STUDY_MESSAGE && "language" !in STUDY_MESSAGE
  {
    assert "URL"[0] != "DOI"[0];
    assert "ISSN"[0] != "type"[0];
  }

  lemma StudyExample()
    ensures var r := Normalized(JObj(STUDY_MESSAGE));
      && r.Ok?
      && r.value == Metadata(
           JStr("A Study"), [Author(JStr("A"), JStr("Smith"))], JStr("10.1234/example.doi"),
           JNull, JNull, JNull, JNull, JNull, JInt(2020), JNull, JNull, JNull)
  {
    var m := STUDY_MESSAGE;
    StudyParts();
    StudyAbsentKeys();
    assert FirstOf(m, "title") == Ok(JStr("A Study"));
    NormalizedFromParts(m, JStr("A Study"), JNull, JNull, [Author(JStr("A"), JStr("Smith"))], JInt(2020));
  }
}
