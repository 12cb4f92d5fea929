/**
 * The contact table the SQLAlchemy stores share
 * (client/db.py, talkative_server/talkative_server/db_sqlite.py,
 * talkative_phone/db.py): one `Contact` row per (owner, contact) pair, and
 * the case-insensitive `by_name` query they all run on the user table.
 */
module SqlRows {
  import opened Wrappers
  import opened Envelope
  import opened Lists
  import opened Text

  /**
   * A `Contact` row. Removing it from `owner.contacts` does not delete it:
   * the relationship only clears its owner.
   */
  datatype ContactRow = ContactRow(owner: Option<nat>, contact: nat)

  /** `Contact.filter_by(owner=o, contact=c)` as a test on a row. */
  function Pair(o: nat, c: nat): ContactRow -> bool {
    (r: ContactRow) => r.owner == Some(o) && r.contact == c
  }

  /** `Contact.filter_by(owner=o, contact=c).count()`. */
  function Links(rows: seq<ContactRow>, o: nat, c: nat): nat {
    Count(rows, Pair(o, c))
  }

  /** The `unique` pairs the stores keep by checking `has_contact` before adding. */
  ghost predicate NoDuplicates(rows: seq<ContactRow>) {
    forall o: nat, c: nat :: Links(rows, o, c) <= 1
  }

  /**
   * `Contact.filter_by(owner=o, contact=c).one()`: the index of the only
   * matching row; None when there is no such row or more than one
   * (NoResultFound, MultipleResultsFound).
   */
  function One(rows: seq<ContactRow>, o: nat, c: nat): (r: Option<nat>)
    ensures r.Some? <==> Links(rows, o, c) == 1
    ensures r.Some? ==> r.value < |rows| && rows[r.value] == ContactRow(Some(o), c)
  {
    if Links(rows, o, c) != 1 then None
    else
      CountPositive(rows, Pair(o, c));
      FirstWhere(rows, Pair(o, c))
  }

  /** `owner.contacts.remove(row)`: the row loses its owner and stays in the table. */
  function Disowned(rows: seq<ContactRow>, i: nat): (r: seq<ContactRow>)
    requires i < |rows|
    ensures |r| == |rows|
  {
    rows[i := rows[i].(owner := None)]
  }

  /** Disowning a matching row takes one off that pair's count and leaves every other pair's count alone. */
  lemma DisownedLinks(rows: seq<ContactRow>, i: nat, o: nat, c: nat, o2: nat, c2: nat)
    requires i < |rows| && rows[i] == ContactRow(Some(o), c)
    ensures Links(Disowned(rows, i), o, c) == Links(rows, o, c) - 1
    ensures (o2, c2) != (o, c) ==> Links(Disowned(rows, i), o2, c2) == Links(rows, o2, c2)
  {
    var q := rows[i].(owner := None);
    assert rows == rows[..i] + [rows[i]] + rows[i + 1..];
    assert Disowned(rows, i) == rows[..i] + [q] + rows[i + 1..];
    FilterAppend(rows[..i] + [rows[i]], rows[i + 1..], Pair(o, c));
    FilterAppend(rows[..i], [rows[i]], Pair(o, c));
    FilterAppend(rows[..i] + [q], rows[i + 1..], Pair(o, c));
    FilterAppend(rows[..i], [q], Pair(o, c));
    FilterAppend(rows[..i] + [rows[i]], rows[i + 1..], Pair(o2, c2));
    FilterAppend(rows[..i], [rows[i]], Pair(o2, c2));
    FilterAppend(rows[..i] + [q], rows[i + 1..], Pair(o2, c2));
    FilterAppend(rows[..i], [q], Pair(o2, c2));
    assert [rows[i]][1..] == [] && [q][1..] == [];
  }

  /** A pair has no row exactly when its count is zero: `Contact.contact_id` of the owner's rows misses it. */
  lemma LinksZero(rows: seq<ContactRow>, o: nat, c: nat)
    ensures Links(rows, o, c) == 0 <==> forall j :: 0 <= j < |rows| ==> rows[j] != ContactRow(Some(o), c)
  {
    var f := Filter(rows, Pair(o, c));
    if |f| > 0 {
      assert f[0] in rows && Pair(o, c)(f[0]);
    }
  }

  /** A new row adds one to its own pair's count and nothing to any other pair's. */
  lemma AddedLinks(rows: seq<ContactRow>, o: nat, c: nat)
    ensures forall o2: nat, c2: nat ::
      Links(rows + [ContactRow(Some(o), c)], o2, c2) == Links(rows, o2, c2) + if (o2, c2) == (o, c) then 1 else 0
  {
    forall o2: nat, c2: nat
      ensures Links(rows + [ContactRow(Some(o), c)], o2, c2) == Links(rows, o2, c2) + if (o2, c2) == (o, c) then 1 else 0
    {
      CountSnoc(rows, ContactRow(Some(o), c), Pair(o2, c2));
    }
  }

  /**
   * Adding a row for a pair that had none, then disowning the one row `.one()`
   * finds for it, gives every pair its count back: `add_contact` followed by
   * `del_contact` restores the contact set.
   */
  lemma AddThenDisownRestores(rows: seq<ContactRow>, o: nat, c: nat)
    requires Links(rows, o, c) == 0
    ensures One(rows + [ContactRow(Some(o), c)], o, c) == Some(|rows|)
    ensures forall o2: nat, c2: nat :: Links(Disowned(rows + [ContactRow(Some(o), c)], |rows|), o2, c2) == Links(rows, o2, c2)
  {
    var added := rows + [ContactRow(Some(o), c)];
    AddedLinks(rows, o, c);
    LinksZero(rows, o, c);
    assert Disowned(added, |rows|) == rows + [ContactRow(None, c)];
    forall o2: nat, c2: nat
      ensures Links(Disowned(added, |rows|), o2, c2) == Links(rows, o2, c2)
    {
      CountSnoc(rows, ContactRow(None, c), Pair(o2, c2));
    }
  }

  /** Rows added to a table never lower a pair's count. */
  lemma LinksGrow(rows: seq<ContactRow>, extra: seq<ContactRow>, o: nat, c: nat)
    ensures Links(rows + extra, o, c) >= Links(rows, o, c)
  {
    FilterAppend(rows, extra, Pair(o, c));
  }

  lemma {:induction false} CountPositive<T>(xs: seq<T>, p: T -> bool)
    requires Count(xs, p) > 0
    ensures FirstWhere(xs, p).Some?
  {
    if FirstWhere(xs, p).None? {
      FilterNone(xs, p);
    }
  }

  /** A user row as far as `by_name` sees it. */
  function NameIndex<U>(users: seq<U>, name: U -> string, s: string): (r: Option<nat>)
    ensures r.Some? ==> r.value < |users| && SameName(name(users[r.value]), s)
    ensures r.Some? ==> forall j :: 0 <= j < r.value ==> !SameName(name(users[j]), s)
    ensures r.None? ==> forall j :: 0 <= j < |users| ==> !SameName(name(users[j]), s)
  {
    FirstWhere(users, (u: U) => SameName(name(u), s))
  }

  /**
   * `filter(func.lower(username) == s.lower()).first()` ignores case on both
   * sides: two spellings of one name find the same user.
   */
  lemma NameIndexIgnoresCase<U>(users: seq<U>, name: U -> string, s: string, t: string)
    requires Lower(s) == Lower(t)
    ensures NameIndex(users, name, s) == NameIndex(users, name, t)
  {
    var a, b := NameIndex(users, name, s), NameIndex(users, name, t);
    if a.Some? && b.Some? && a.value != b.value {
      if a.value < b.value {
        assert SameName(name(users[a.value]), t);
      } else {
        assert SameName(name(users[b.value]), s);
      }
    } else if a.Some? && b.None? {
      assert SameName(name(users[a.value]), t);
    } else if a.None? && b.Some? {
      assert SameName(name(users[b.value]), s);
    }
  }

  /** The first user matching a name is the one `by_name` returns. */
  lemma NameIndexFirst<U>(users: seq<U>, name: U -> string, s: string, i: nat)
    requires i < |users| && SameName(name(users[i]), s)
    requires forall j :: 0 <= j < i ==> !SameName(name(users[j]), s)
    ensures NameIndex(users, name, s) == Some(i)
  {
  }

  /** Any stored name finds a user, under any spelling. */
  lemma StoredNameFound<U>(users: seq<U>, name: U -> string, i: nat, s: string)
    requires i < |users| && Lower(s) == Lower(name(users[i]))
    ensures NameIndex(users, name, s).Some? && NameIndex(users, name, s).value <= i
  {
  }
}
