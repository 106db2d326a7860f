/**
 The credential list held while the vault is unlocked, and the pure list
 transforms the handlers apply to it: the record a new entry gets, the
 edit-by-id `map`, the delete-by-id `filter`, and the search/category filter
 of the list screen.
 */
module Entries {

  /** One stored credential. An absent `url` or `notes` is the empty string. */
  datatype Entry = Entry(
    id: string,
    title: string,
    username: string,
    password: string,
    url: string,
    category: string,
    notes: string,
    createdAt: string,
    updatedAt: string)

  /** The add/edit form. */
  datatype Form = Form(
    title: string,
    username: string,
    password: string,
    url: string,
    category: string,
    notes: string)

  /** What `resetForm` puts back. */
  const EmptyForm := Form("", "", "", "", "other", "")

  /** A new record: the given id and timestamps, and every field of the form. */
  function NewEntry(id: string, form: Form, createdAt: string, updatedAt: string): (e: Entry)
    ensures e.id == id && e.createdAt == createdAt && e.updatedAt == updatedAt
    ensures FormOf(e) == form
  {
    Entry(id, form.title, form.username, form.password, form.url, form.category, form.notes,
          createdAt, updatedAt)
  }

  /** The form fields of an entry. */
  function FormOf(e: Entry): Form
  {
    Form(e.title, e.username, e.password, e.url, e.category, e.notes)
  }

  /** An edited record: the form's fields and the new update time override, id and creation time stay. */
  function ApplyForm(e: Entry, form: Form, updatedAt: string): (r: Entry)
    ensures r.id == e.id && r.createdAt == e.createdAt && r.updatedAt == updatedAt
    ensures FormOf(r) == form
  {
    e.(title := form.title, username := form.username, password := form.password,
       url := form.url, category := form.category, notes := form.notes, updatedAt := updatedAt)
  }

  predicate HasId(es: seq<Entry>, id: string) {
    exists i :: 0 <= i < |es| && es[i].id == id
  }

  /** Number of entries carrying `id`. */
  function CountId(es: seq<Entry>, id: string): (n: nat)
    ensures n <= |es|
    ensures n == 0 <==> !HasId(es, id)
  {
    if es == [] then 0
    else (if es[0].id == id then 1 else 0) + CountId(es[1..], id)
  }

  // ---------------------------------------------------------------------------
  // Edit: every record with the selected id takes the form; the clock is read
  // again for each such record
  // ---------------------------------------------------------------------------

  /**
   The edited list. `stamps[i]` is what the clock reads if the edit reaches
   record `i` with a matching id; the other stamps are never read.
   */
  function EditById(es: seq<Entry>, id: string, form: Form, stamps: seq<string>): (r: seq<Entry>)
    requires |stamps| == |es|
    ensures |r| == |es|
    ensures forall i :: 0 <= i < |es| && es[i].id == id ==> r[i] == ApplyForm(es[i], form, stamps[i])
    ensures forall i :: 0 <= i < |es| && es[i].id != id ==> r[i] == es[i]
    ensures forall i :: 0 <= i < |es| ==> r[i].id == es[i].id && r[i].createdAt == es[i].createdAt
  {
    if es == [] then []
    else [if es[0].id == id then ApplyForm(es[0], form, stamps[0]) else es[0]]
         + EditById(es[1..], id, form, stamps[1..])
  }

  /** Editing an id that is not in the list leaves the list equal. */
  lemma EditAbsent(es: seq<Entry>, id: string, form: Form, stamps: seq<string>)
    requires |stamps| == |es|
    requires !HasId(es, id)
    ensures EditById(es, id, form, stamps) == es
  {
    var r := EditById(es, id, form, stamps);
    assert forall i :: 0 <= i < |es| ==> r[i] == es[i];
  }

  /** Submitting the same form twice, with the clock reading the same, is the same as once. */
  lemma EditIdempotent(es: seq<Entry>, id: string, form: Form, stamps: seq<string>)
    requires |stamps| == |es|
    ensures EditById(EditById(es, id, form, stamps), id, form, stamps) == EditById(es, id, form, stamps)
  {
    var r := EditById(es, id, form, stamps);
    var rr := EditById(r, id, form, stamps);
    forall i | 0 <= i < |es| ensures rr[i] == r[i] {
      assert r[i].id == es[i].id;
    }
  }

  // ---------------------------------------------------------------------------
  // Delete: keep the records whose id differs, in order
  // ---------------------------------------------------------------------------

  function DeleteById(es: seq<Entry>, id: string): (r: seq<Entry>)
    ensures |r| == |es| - CountId(es, id)
    ensures forall i :: 0 <= i < |r| ==> r[i].id != id
    ensures forall e :: e in r <==> e in es && e.id != id
  {
    if es == [] then []
    else if es[0].id == id then DeleteById(es[1..], id)
    else [es[0]] + DeleteById(es[1..], id)
  }

  /** Deleting is done piecewise: the relative order of what remains is kept. */
  lemma {:induction false} DeleteDistributes(a: seq<Entry>, b: seq<Entry>, id: string)
    ensures DeleteById(a + b, id) == DeleteById(a, id) + DeleteById(b, id)
    decreases |a|
  {
    if a != [] {
      assert (a + b)[1..] == a[1..] + b;
      DeleteDistributes(a[1..], b, id);
    } else {
      assert a + b == b;
    }
  }

  /** Deleting an id that is not in the list leaves the list equal. */
  lemma {:induction false} DeleteAbsent(es: seq<Entry>, id: string)
    requires !HasId(es, id)
    ensures DeleteById(es, id) == es
    decreases |es|
  {
    if es != [] {
      DeleteAbsent(es[1..], id);
    }
  }

  /** Deleting twice removes nothing more. */
  lemma DeleteIdempotent(es: seq<Entry>, id: string)
    ensures DeleteById(DeleteById(es, id), id) == DeleteById(es, id)
  {
    DeleteAbsent(DeleteById(es, id), id);
  }

  /** Deleting the id of an entry just appended undoes the append (and removes older namesakes). */
  lemma DeleteAfterAppend(es: seq<Entry>, e: Entry)
    ensures DeleteById(es + [e], e.id) == DeleteById(es, e.id)
  {
    DeleteDistributes(es, [e], e.id);
    assert DeleteById([e], e.id) == [];
  }

  // ---------------------------------------------------------------------------
  // The list screen's filter: search in title or username, and category
  // ---------------------------------------------------------------------------

  /** `toLowerCase` restricted to ASCII letters. */
  function AsciiLower(s: string): (r: string)
    ensures |r| == |s|
    ensures forall i :: 0 <= i < |s| ==> !('A' <= r[i] <= 'Z')
    ensures forall i :: 0 <= i < |s| && !('A' <= s[i] <= 'Z') ==> r[i] == s[i]
  {
    seq(|s|, i requires 0 <= i < |s| =>
      if 'A' <= s[i] <= 'Z' then (s[i] as int - 'A' as int + 'a' as int) as char else s[i])
  }

  /** `sub` occurs in `s` starting at index `k`. */
  predicate OccursAt(s: string, sub: string, k: int) {
    0 <= k && k + |sub| <= |s| && s[k..k + |sub|] == sub
  }

  /** String containment: `sub` occurs somewhere in `s`. */
  predicate Includes(s: string, sub: string) {
    exists k :: 0 <= k <= |s| - |sub| && OccursAt(s, sub, k)
  }

  /** A record the list screen shows: the search occurs in its title or username, ignoring case, and its category passes. */
  predicate MatchesFilter(e: Entry, search: string, category: string) {
    var q := AsciiLower(search);
    (Includes(AsciiLower(e.title), q) || Includes(AsciiLower(e.username), q))
    && (category == "all" || e.category == category)
  }

  /** Lowercasing twice is lowercasing once. */
  lemma AsciiLowerIdempotent(s: string)
    ensures AsciiLower(AsciiLower(s)) == AsciiLower(s)
  {
    var r := AsciiLower(s);
    assert forall i :: 0 <= i < |r| ==> AsciiLower(r)[i] == r[i];
  }

  /** The search is case-insensitive: lowercasing the query first changes nothing. */
  lemma SearchIgnoresCase(e: Entry, search: string, category: string)
    ensures MatchesFilter(e, AsciiLower(search), category) == MatchesFilter(e, search, category)
  {
    AsciiLowerIdempotent(search);
  }

  /** An empty search matches every record; only the category decides. */
  lemma EmptySearchMatchesCategory(e: Entry, category: string)
    ensures MatchesFilter(e, "", category) <==> (category == "all" || e.category == category)
  {
    assert OccursAt(AsciiLower(e.title), AsciiLower(""), 0);
  }

  function FilterEntries(es: seq<Entry>, search: string, category: string): (r: seq<Entry>)
    ensures |r| <= |es|
    ensures forall e :: e in r <==> e in es && MatchesFilter(e, search, category)
  {
    if es == [] then []
    else if MatchesFilter(es[0], search, category) then [es[0]] + FilterEntries(es[1..], search, category)
    else FilterEntries(es[1..], search, category)
  }

  /** With an empty search and category "all" the whole list is shown, in order. */
  lemma {:induction false} FilterAllShowsEverything(es: seq<Entry>)
    ensures FilterEntries(es, "", "all") == es
    decreases |es|
  {
    if es != [] {
      assert Includes(AsciiLower(es[0].title), AsciiLower("")) by {
        assert OccursAt(AsciiLower(es[0].title), AsciiLower(""), 0);
      }
      FilterAllShowsEverything(es[1..]);
    }
  }

  /** The filter keeps the list order: it works piecewise on a concatenation. */
  lemma {:induction false} FilterDistributes(a: seq<Entry>, b: seq<Entry>, search: string, category: string)
    ensures FilterEntries(a + b, search, category)
         == FilterEntries(a, search, category) + FilterEntries(b, search, category)
    decreases |a|
  {
    if a != [] {
      assert (a + b)[1..] == a[1..] + b;
      FilterDistributes(a[1..], b, search, category);
    } else {
      assert a + b == b;
    }
  }
}
