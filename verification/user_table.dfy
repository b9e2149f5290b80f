/**
 * The `users` table as the core uses it: rows in insertion (auto-increment
 * id) order, the next id to hand out, and the unique index on `email`.
 */
module UserTable {
  import opened Wrappers
  import opened Exceptions
  import opened UserModel

  /** The database error the unique index raises for a repeated e-mail. */
  function DuplicateEmailMessage(email: string): string {
    "SQLSTATE[23000]: Integrity constraint violation: 1062 Duplicate entry '" + email
      + "' for key 'users.users_email_unique'"
  }

  /** The e-mails stored in `rows`. */
  function Emails(rows: seq<User>): set<string>
  {
    set k | 0 <= k < |rows| :: rows[k].email
  }

  lemma EmailsAppend(rows: seq<User>, u: User)
    ensures Emails(rows + [u]) == Emails(rows) + {u.email}
  {
    var all := rows + [u];
    assert all[|rows|] == u;
    forall e | e in Emails(rows)
      ensures e in Emails(all)
    {
      var k :| 0 <= k < |rows| && rows[k].email == e;
      assert all[k] == rows[k];
    }
  }

  /** Position of the row with id `id`, if any. */
  function IndexOf(rows: seq<User>, id: int): (r: Option<nat>)
    ensures r.Some? ==> r.value < |rows| && rows[r.value].id == id
    ensures r.None? <==> forall k :: 0 <= k < |rows| ==> rows[k].id != id
  {
    if rows == [] then None
    else if rows[|rows| - 1].id == id then Some(|rows| - 1)
    else IndexOf(rows[..|rows| - 1], id)
  }

  /** Ids strictly increase (auto-increment), stay below the next id, and e-mails are unique. */
  ghost predicate WellFormed(rows: seq<User>, nextId: int) {
    && nextId > 0
    && (forall i, j :: 0 <= i < j < |rows| ==> rows[i].id < rows[j].id)
    && (forall i :: 0 <= i < |rows| ==> 0 < rows[i].id < nextId)
    && (forall i, j :: 0 <= i < j < |rows| ==> rows[i].email != rows[j].email)
  }

  /** The rows besides the `k`-th: those whose e-mails the unique index compares with a rewritten row. */
  function Others(rows: seq<User>, k: nat): seq<User>
    requires k < |rows|
  {
    rows[..k] + rows[k + 1..]
  }

  /** Replacing a row by one with the same id and an e-mail no other row has keeps the table well formed. */
  lemma ReplaceKeepsWellFormed(rows: seq<User>, nextId: int, k: nat, u: User)
    requires WellFormed(rows, nextId) && k < |rows| && u.id == rows[k].id
    requires u.email !in Emails(Others(rows, k))
    ensures WellFormed(rows[k := u], nextId)
  {
    var others := Others(rows, k);
    forall i | 0 <= i < |rows| && i != k
      ensures rows[i].email != u.email
    {
      if i < k {
        assert others[i] == rows[i];
      } else {
        assert others[i - 1] == rows[i];
      }
    }
  }

  class Table {
    var rows: seq<User>
    var nextId: int

    ghost predicate Valid()
      reads this
    {
      WellFormed(rows, nextId)
    }

    constructor ()
      ensures Valid() && rows == [] && nextId == 1
    {
      rows := [];
      nextId := 1;
    }

    /**
     * `User::create`: a row with the next id, or the unique-index violation
     * when the e-mail is already stored, in which case nothing is written.
     */
    method Insert(name: string, email: string, passwordHash: string, status: Option<string>, tipo: string)
      returns (r: Result<User, Throwable>)
      requires Valid()
      modifies this
      ensures Valid()
      ensures email in Emails(old(rows)) ==>
        (r == Err(UniqueConstraintViolation(DuplicateEmailMessage(email))) && rows == old(rows) && nextId == old(nextId))
      ensures email !in Emails(old(rows)) ==>
        (r == Ok(Create(old(nextId), name, email, passwordHash, status, tipo))
         && rows == old(rows) + [r.value] && nextId == old(nextId) + 1)
    {
      if email in Emails(rows) {
        return Err(UniqueConstraintViolation(DuplicateEmailMessage(email)));
      }
      var u := Create(nextId, name, email, passwordHash, status, tipo);
      rows := rows + [u];
      nextId := nextId + 1;
      r := Ok(u);
    }

    /**
     * `$model->update($attributes)` on the row at position `k`: the filled row
     * replaces it in place, unless the new e-mail belongs to another row, in
     * which case the unique index refuses the write.
     */
    method Update(k: nat, attributes: map<string, string>, hash: string -> string)
      returns (r: Result<User, Throwable>)
      requires Valid() && k < |rows|
      modifies this
      ensures Valid() && nextId == old(nextId)
      ensures r.Err? <==> Fill(old(rows)[k], attributes, hash).email in Emails(Others(old(rows), k))
      ensures r.Err? ==>
        && r.error == UniqueConstraintViolation(DuplicateEmailMessage(Fill(old(rows)[k], attributes, hash).email))
        && rows == old(rows)
      ensures r.Ok? ==> r.value == Fill(old(rows)[k], attributes, hash) && rows == old(rows)[k := r.value]
    {
      var updated := Fill(rows[k], attributes, hash);
      if updated.email in Emails(Others(rows, k)) {
        return Err(UniqueConstraintViolation(DuplicateEmailMessage(updated.email)));
      }
      ReplaceKeepsWellFormed(rows, nextId, k, updated);
      rows := rows[k := updated];
      r := Ok(updated);
    }
  }
}
