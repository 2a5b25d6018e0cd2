/**
 * The SET-clause builder of `PublicationsRepo.patchPublication`: one
 * `column = $i` per provided field, in the order of the key-to-column
 * table, then `updated_at = now()`, and the id as the last placeholder.
 */
module PublicationsRepo {
  import opened Common

  /** The key-to-column table, in its declaration order. */
  const ColumnMap: seq<(string, string)> := [
    ("title", "title"),
    ("contentHtml", "content_html"),
    ("visibility", "visibility"),
    ("campusId", "campus_id"),
    ("themeId", "theme_id"),
    ("eventStartAt", "event_start_at"),
    ("eventEndAt", "event_end_at")]

  /** One item of the SET list. */
  datatype Assignment = SetColumn(column: string, placeholder: nat) | UpdatedAtNow

  /** `UPDATE publications SET <fields> WHERE id = $<idPlaceholder>` with `values`. */
  datatype UpdateQuery = UpdateQuery(fields: seq<Assignment>, values: seq<Option<string>>, idPlaceholder: nat)

  /** The table entries whose key is provided (not undefined) in `patch`, in table order. */
  function Provided(patch: map<string, Option<string>>, entries: seq<(string, string)>): (r: seq<(string, string)>)
    ensures |r| <= |entries|
    ensures forall j | 0 <= j < |r| :: r[j] in entries && r[j].0 in patch
  {
    if entries == [] then []
    else
      var init := Provided(patch, entries[..|entries| - 1]);
      var last := entries[|entries| - 1];
      if last.0 in patch then init + [last] else init
  }

  /** `SET c1 = $start, c2 = $start+1, ...` for the given entries. */
  function Assignments(entries: seq<(string, string)>, start: nat): (r: seq<Assignment>)
    ensures |r| == |entries|
    ensures forall j | 0 <= j < |r| :: r[j] == SetColumn(entries[j].1, start + j)
  {
    seq(|entries|, j requires 0 <= j < |entries| => SetColumn(entries[j].1, start + j))
  }

  /** The values bound to those placeholders. */
  function ValuesOf(patch: map<string, Option<string>>, entries: seq<(string, string)>): (r: seq<Option<string>>)
    requires forall j | 0 <= j < |entries| :: entries[j].0 in patch
    ensures |r| == |entries|
    ensures forall j | 0 <= j < |r| :: r[j] == patch[entries[j].0]
  {
    seq(|entries|, j requires 0 <= j < |entries| => patch[entries[j].0])
  }

  /**
   * `patchPublication`: the update it issues, or `None` when no mapped key
   * is provided and no query is sent.
   */
  method PatchPublication(id: string, patch: map<string, Option<string>>) returns (q: Option<UpdateQuery>)
    ensures q.None? <==> Provided(patch, ColumnMap) == []
    ensures q.Some? ==>
      var cols := Provided(patch, ColumnMap);
      && q.value.fields == Assignments(cols, 1) + [UpdatedAtNow]
      && q.value.values == ValuesOf(patch, cols) + [Some(id)]
      && q.value.idPlaceholder == |cols| + 1 == |q.value.values|
  {
    var fields, values := SetClauses(patch, ColumnMap);
    fields := fields + [UpdatedAtNow];
    if |fields| == 1 {
      return None;
    }
    var i := |values| + 1;
    values := values + [Some(id)];
    return Some(UpdateQuery(fields, values, i));
  }

  /** The loop over the key-to-column table: one `column = $i` and one value per provided key. */
  method SetClauses(patch: map<string, Option<string>>, table: seq<(string, string)>)
    returns (fields: seq<Assignment>, values: seq<Option<string>>)
    ensures fields == Assignments(Provided(patch, table), 1)
    ensures values == ValuesOf(patch, Provided(patch, table))
  {
    fields, values := [], [];
    var k := 0;
    while k < |table|
      invariant 0 <= k <= |table|
      invariant fields == Assignments(Provided(patch, table[..k]), 1)
      invariant values == ValuesOf(patch, Provided(patch, table[..k]))
    {
      fields, values := AddColumnIfProvided(patch, table, k, fields, values);
      k := k + 1;
    }
    assert table[..k] == table;
  }

  /** One turn of the loop: `if (patch[key] !== undefined) { fields.push(...); values.push(...) }`. */
  method AddColumnIfProvided(patch: map<string, Option<string>>, table: seq<(string, string)>, k: nat,
                             fields: seq<Assignment>, values: seq<Option<string>>)
    returns (fields': seq<Assignment>, values': seq<Option<string>>)
    requires k < |table|
    requires fields == Assignments(Provided(patch, table[..k]), 1)
    requires values == ValuesOf(patch, Provided(patch, table[..k]))
    ensures fields' == Assignments(Provided(patch, table[..k + 1]), 1)
    ensures values' == ValuesOf(patch, Provided(patch, table[..k + 1]))
  {
    var (key, col) := table[k];
    ProvidedStep(patch, table, k);
    fields', values' := fields, values;
    if key in patch {
      AssignmentsSnoc(Provided(patch, table[..k]), table[k], 1);
      ValuesSnoc(patch, Provided(patch, table[..k]), table[k]);
      fields' := fields + [SetColumn(col, |values| + 1)];
      values' := values + [patch[key]];
    }
  }

  lemma ProvidedStep(patch: map<string, Option<string>>, entries: seq<(string, string)>, k: nat)
    requires k < |entries|
    ensures Provided(patch, entries[..k + 1]) ==
      Provided(patch, entries[..k]) + (if entries[k].0 in patch then [entries[k]] else [])
  {
    assert entries[..k + 1][..k] == entries[..k];
  }

  lemma AssignmentsSnoc(entries: seq<(string, string)>, e: (string, string), start: nat)
    ensures Assignments(entries + [e], start) == Assignments(entries, start) + [SetColumn(e.1, start + |entries|)]
  {
    assert forall j | 0 <= j < |entries| :: (entries + [e])[j] == entries[j];
  }

  lemma ValuesSnoc(patch: map<string, Option<string>>, entries: seq<(string, string)>, e: (string, string))
    requires forall j | 0 <= j < |entries| :: entries[j].0 in patch
    requires e.0 in patch
    ensures ValuesOf(patch, entries + [e]) == ValuesOf(patch, entries) + [patch[e.0]]
  {
    assert forall j | 0 <= j < |entries| :: (entries + [e])[j] == entries[j];
  }

  /** A key is emitted exactly when it is mapped and provided; a provided null counts as provided. */
  lemma {:induction false} ProvidedExactly(patch: map<string, Option<string>>, entries: seq<(string, string)>)
    ensures forall e :: e in Provided(patch, entries) <==> e in entries && e.0 in patch
  {
    if entries != [] {
      var init := entries[..|entries| - 1];
      ProvidedExactly(patch, init);
      assert entries == init + [entries[|entries| - 1]];
    }
  }

  /** Keys outside the table make no difference. */
  lemma {:induction false} OtherKeysIgnored(p1: map<string, Option<string>>, p2: map<string, Option<string>>,
                                             entries: seq<(string, string)>)
    requires forall j | 0 <= j < |entries| :: (entries[j].0 in p1 <==> entries[j].0 in p2)
    ensures Provided(p1, entries) == Provided(p2, entries)
  {
    if entries != [] {
      OtherKeysIgnored(p1, p2, entries[..|entries| - 1]);
    }
  }

  /** When every table key is provided, all seven columns are emitted, in table order. */
  lemma AllKeysProvided(patch: map<string, Option<string>>)
    requires forall j | 0 <= j < |ColumnMap| :: ColumnMap[j].0 in patch
    ensures Provided(patch, ColumnMap) == ColumnMap
  {
    AllProvided(patch, ColumnMap);
  }

  lemma {:induction false} AllProvided(patch: map<string, Option<string>>, entries: seq<(string, string)>)
    requires forall j | 0 <= j < |entries| :: entries[j].0 in patch
    ensures Provided(patch, entries) == entries
  {
    if entries != [] {
      AllProvided(patch, entries[..|entries| - 1]);
    }
  }
}
