/**
 * The queued CSV import of clients: one pass over the file's rows that
 * counts successes, wrong profiles and duplicate e-mails while inserting
 * clients into the users table, then deletes the file and notifies the
 * user who asked for the import.
 */
module ImportClientes {
  import opened Wrappers
  import opened Exceptions
  import opened UserModel
  import opened UserTable
  import ClientesImportados

  /** The application's file storage: stored path to the rows `fgetcsv` reads from it. */
  class FileStorage {
    var files: map<string, seq<seq<string>>>

    constructor ()
      ensures files == map[]
    {
      files := map[];
    }
  }

  /** The queued job: the stored file and the user who uploaded it. */
  datatype ImportJob = ImportJob(filePath: string, requester: User)

  /** A notification handed to the mail channel, with its recipient. */
  datatype Sent = Sent(to: User, notification: ClientesImportados.Notification)

  /** The rows after the header line, which is read and discarded. */
  function DataRows(lines: seq<seq<string>>): (rows: seq<seq<string>>)
    ensures lines != [] ==> rows == lines[1..]
    ensures lines == [] ==> rows == []
  {
    if lines == [] then [] else lines[1..]
  }

  /**
   * The counters and the set of stored e-mails, which together decide what
   * each further row does.
   */
  datatype Tally = Tally(sucesso: nat, perfil: nat, duplicados: nat, emails: set<string>)

  /**
   * What one row does. Only rows of exactly five fields (name, email,
   * password, status, tipo) are processed; a tipo other than `cliente` counts
   * as a profile error; `fault` marks a row the database rejects for another
   * reason, which is logged and counted nowhere; a stored e-mail is a
   * duplicate; any other row is inserted.
   */
  function Step(t: Tally, row: seq<string>, fault: seq<string> -> bool): (r: Tally)
    ensures r.sucesso + r.perfil + r.duplicados <= t.sucesso + t.perfil + t.duplicados + (if |row| == 5 then 1 else 0)
    ensures |row| != 5 ==> r == t
    ensures |row| == 5 && row[4] != "cliente" ==> r == t.(perfil := t.perfil + 1)
    ensures |row| == 5 && row[4] == "cliente" && fault(row) ==> r == t
    ensures |row| == 5 && row[4] == "cliente" && !fault(row) && row[1] in t.emails ==>
      r == t.(duplicados := t.duplicados + 1)
    ensures |row| == 5 && row[4] == "cliente" && !fault(row) && row[1] !in t.emails ==>
      r == t.(sucesso := t.sucesso + 1, emails := t.emails + {row[1]})
    ensures r.emails == t.emails || (|row| == 5 && r.emails == t.emails + {row[1]} && row[1] !in t.emails)
  {
    if |row| != 5 then t
    else if row[4] != "cliente" then t.(perfil := t.perfil + 1)
    else if fault(row) then t
    else if row[1] in t.emails then t.(duplicados := t.duplicados + 1)
    else t.(sucesso := t.sucesso + 1, emails := t.emails + {row[1]})
  }

  /** The rows processed in order, from the tally `t`. */
  function Run(t: Tally, rows: seq<seq<string>>, fault: seq<string> -> bool): Tally
    decreases |rows|
  {
    if rows == [] then t else Step(Run(t, rows[..|rows| - 1], fault), rows[|rows| - 1], fault)
  }

  /** The number of rows with exactly five fields. */
  function FiveFieldRows(rows: seq<seq<string>>): (n: nat)
    ensures n <= |rows|
  {
    if rows == [] then 0
    else FiveFieldRows(rows[..|rows| - 1]) + (if |rows[|rows| - 1]| == 5 then 1 else 0)
  }

  /** Each five-field row moves at most one counter; other rows move none. */
  lemma {:induction false} CountersBounded(t: Tally, rows: seq<seq<string>>, fault: seq<string> -> bool)
    ensures var r := Run(t, rows, fault);
      r.sucesso + r.perfil + r.duplicados <= t.sucesso + t.perfil + t.duplicados + FiveFieldRows(rows)
  {
    if rows != [] {
      CountersBounded(t, rows[..|rows| - 1], fault);
    }
  }

  /** Every success stores one e-mail that was not stored before, and no other. */
  lemma {:induction false} SuccessesAreNewEmails(t: Tally, rows: seq<seq<string>>, fault: seq<string> -> bool)
    ensures var r := Run(t, rows, fault);
      t.emails <= r.emails && r.sucesso >= t.sucesso && |r.emails| - |t.emails| == r.sucesso - t.sucesso
  {
    if rows != [] {
      SuccessesAreNewEmails(t, rows[..|rows| - 1], fault);
      var before := Run(t, rows[..|rows| - 1], fault);
      var row := rows[|rows| - 1];
      if |row| == 5 && row[4] == "cliente" && !fault(row) && row[1] !in before.emails {
        assert |before.emails + {row[1]}| == |before.emails| + 1;
      }
    }
  }

  /** A file whose rows never have five fields leaves every counter and the table as they were. */
  lemma {:induction false} MalformedRowsIgnored(t: Tally, rows: seq<seq<string>>, fault: seq<string> -> bool)
    requires forall k :: 0 <= k < |rows| ==> |rows[k]| != 5
    ensures Run(t, rows, fault) == t
  {
    if rows != [] {
      MalformedRowsIgnored(t, rows[..|rows| - 1], fault);
    }
  }

  /** Two identical client rows with a new e-mail: one success, then one duplicate. */
  lemma RepeatedClientRow(t: Tally, row: seq<string>, fault: seq<string> -> bool)
    requires |row| == 5 && row[4] == "cliente" && !fault(row) && row[1] !in t.emails
    ensures Run(t, [row, row], fault)
      == t.(sucesso := t.sucesso + 1, duplicados := t.duplicados + 1, emails := t.emails + {row[1]})
  {
    assert [row, row][..1] == [row];
    assert [row][..0] == [];
    assert Run(t, [row], fault) == Step(t, row, fault);
    assert Run(t, [row, row], fault) == Step(Run(t, [row], fault), row, fault);
  }

  /**
   * The row `u` was created from the five-field CSV row `row`: name, e-mail,
   * hashed password and status taken by position, and the role `cliente`.
   */
  predicate FromRow(u: User, row: seq<string>, hash: string -> string) {
    |row| == 5 && u == Create(u.id, row[0], row[1], hash(row[2]), Some(row[3]), "cliente")
  }

  /**
   * The closure `handle` runs on each row: the counters passed in are
   * updated as `Step` says, and a successful row appends one client to the
   * table.
   */
  method ProcessRow(table: Table, row: seq<string>, fault: seq<string> -> bool, hash: string -> string,
                    sucesso: nat, perfil: nat, duplicados: nat)
    returns (sucesso': nat, perfil': nat, duplicados': nat)
    requires table.Valid()
    modifies table
    ensures table.Valid()
    ensures Tally(sucesso', perfil', duplicados', Emails(table.rows))
         == Step(Tally(sucesso, perfil, duplicados, Emails(old(table.rows))), row, fault)
    ensures sucesso' == sucesso ==> table.rows == old(table.rows)
    ensures sucesso' != sucesso ==>
      && |row| == 5 && sucesso' == sucesso + 1
      && |table.rows| == |old(table.rows)| + 1
      && table.rows[..|old(table.rows)|] == old(table.rows)
      && table.rows[|old(table.rows)|] == Create(old(table.nextId), row[0], row[1], hash(row[2]), Some(row[3]), "cliente")
  {
    sucesso', perfil', duplicados' := sucesso, perfil, duplicados;
    if |row| == 5 {
      if row[4] != "cliente" {
        perfil' := perfil + 1;
      } else if fault(row) {
        // logged and skipped
      } else {
        ghost var before := table.rows;
        var created := table.Insert(row[0], row[1], hash(row[2]), Some(row[3]), "cliente");
        if created.Ok? {
          sucesso' := sucesso + 1;
          assert table.rows == before + [created.value];
          EmailsAppend(before, created.value);
        } else {
          duplicados' := duplicados + 1;
        }
      }
    }
  }

  /**
   * `handle`: reads the stored rows, skips the header, processes every row
   * against the users table, deletes the file and notifies the requester
   * once with the three counters. Every inserted row is a client.
   */
  method Handle(job: ImportJob, table: Table, storage: FileStorage, fault: seq<string> -> bool, hash: string -> string)
    returns (sent: seq<Sent>)
    requires table.Valid() && job.filePath in storage.files
    modifies table, storage
    ensures table.Valid()
    ensures var t := Run(Tally(0, 0, 0, Emails(old(table.rows))), DataRows(old(storage.files[job.filePath])), fault);
      && sent == [Sent(job.requester, ClientesImportados.Notification(t.sucesso, t.perfil, t.duplicados))]
      && Emails(table.rows) == t.emails
      && |table.rows| == |old(table.rows)| + t.sucesso
    ensures storage.files == old(storage.files) - {job.filePath}
    ensures table.rows[..|old(table.rows)|] == old(table.rows)
    ensures forall k :: |old(table.rows)| <= k < |table.rows| ==>
      && table.rows[k].IsCliente()
      && exists j :: 0 <= j < |DataRows(old(storage.files[job.filePath]))|
                     && FromRow(table.rows[k], DataRows(old(storage.files[job.filePath]))[j], hash)
  {
    var rows := DataRows(storage.files[job.filePath]);
    ghost var initial := table.rows;
    ghost var start := Tally(0, 0, 0, Emails(table.rows));
    var totalSucesso, totalErrosPerfil, totalErrosDuplicados := 0, 0, 0;
    var i := 0;
    while i < |rows|
      modifies table
      invariant 0 <= i <= |rows|
      invariant table.Valid()
      invariant Run(start, rows[..i], fault) == Tally(totalSucesso, totalErrosPerfil, totalErrosDuplicados, Emails(table.rows))
      invariant |table.rows| == |initial| + totalSucesso
      invariant table.rows[..|initial|] == initial
      invariant forall k :: |initial| <= k < |table.rows| ==>
        table.rows[k].IsCliente() && exists j :: 0 <= j < i && FromRow(table.rows[k], rows[j], hash)
    {
      assert rows[..i + 1][..i] == rows[..i];
      ghost var before := table.rows;
      totalSucesso, totalErrosPerfil, totalErrosDuplicados :=
        ProcessRow(table, rows[i], fault, hash, totalSucesso, totalErrosPerfil, totalErrosDuplicados);
      if table.rows != before {
        assert table.rows[..|initial|] == before[..|initial|];
        assert FromRow(table.rows[|before|], rows[i], hash);
      }
      i := i + 1;
    }
    assert rows[..|rows|] == rows;
    storage.files := storage.files - {job.filePath};
    sent := [Sent(job.requester, ClientesImportados.Notification(totalSucesso, totalErrosPerfil, totalErrosDuplicados))];
  }
}
