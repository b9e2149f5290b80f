/**
 * ApiExceptionHandler: how an exception escaping a request whose path starts with `api/` is
 * turned into an envelope response, including the extraction of the
 * duplicated column from a unique-constraint error message.
 */
module ApiExceptionHandler {
  import opened Wrappers
  import opened Json
  import opened Exceptions
  import Text

  /** Laravel's `$request->is` with the API pattern: the path (without leading slash) starts with `api/`. */
  predicate IsApiPath(path: string) {
    Text.StartsWith(path, "api/")
  }

  const ForKey: string := "for key '"
  const UniqueSuffix: string := "_unique'"
  const DefaultColumn: string := "REGISTRO"

  /** No line break in `s[a..b]`: PCRE's `.` does not match one. */
  predicate NoNewline(s: string, a: nat, b: nat) {
    forall k :: a <= k < b && k < |s| ==> s[k] != '\n'
  }

  predicate SuffixAt(s: string, q: nat) {
    q <= |s| && Text.StartsWith(s[q..], UniqueSuffix)
  }

  predicate ForKeyAt(s: string, i: nat) {
    i <= |s| && Text.StartsWith(s[i..], ForKey)
  }

  /**
   * The lazy `(.*?)_unique'` starting at `j`: the first position `q >= j`
   * where `_unique'` begins, without crossing a newline (PCRE's `.`).
   */
  function FindSuffix(s: string, j: nat): (r: Option<nat>)
    requires j <= |s|
    ensures r.Some? ==> j <= r.value <= |s| && SuffixAt(s, r.value) && NoNewline(s, j, r.value)
    ensures r.Some? ==> forall q :: j <= q < r.value ==> !SuffixAt(s, q)
    ensures r.None? ==> forall q :: j <= q <= |s| && NoNewline(s, j, q) ==> !SuffixAt(s, q)
    decreases |s| - j
  {
    if j == |s| then None
    else if SuffixAt(s, j) then Some(j)
    else if s[j] == '\n' then None
    else
      FindSuffix(s, j + 1)
  }

  /**
   * The lazy `.*?\.` followed by the capture: try each `.` from `k` on (not
   * crossing a newline) until a `_unique'` follows it.
   */
  function TryDots(s: string, k: nat): Option<string>
    requires k <= |s|
    decreases |s| - k
  {
    if k == |s| || s[k] == '\n' then None
    else if s[k] == '.' then
      match FindSuffix(s, k + 1)
      case Some(q) => Some(s[k + 1..q])
      case None => TryDots(s, k + 1)
    else TryDots(s, k + 1)
  }

  /** `preg_match("/for key '.*?\.(.*?)_unique'/")`: the leftmost match's capture. */
  function MatchColumn(s: string, i: nat): Option<string>
    requires i <= |s|
    decreases |s| - i
  {
    var here := if ForKeyAt(s, i) then TryDots(s, i + |ForKey|) else None;
    if here.Some? then here
    else if i == |s| then None
    else MatchColumn(s, i + 1)
  }

  /** The column named in a unique-violation message, upper-cased, or REGISTRO. */
  function ColumnName(message: string): string {
    match MatchColumn(message, 0)
    case Some(c) => Text.Upper(c)
    case None => DefaultColumn
  }

  function FriendlyDuplicate(column: string): string {
    "O dado informado (" + column + ") já está em uso por outro usuário."
  }

  /** `handleUniqueViolation`: 409 whose data is the one friendly message. */
  function UniqueViolationResponse(message: string): (r: Response)
    ensures r.status == 409 && IsFailureEnvelope(r)
    ensures DataOf(r) == JList([JStr(FriendlyDuplicate(ColumnName(message)))])
  {
    ReturnJson(JList([JStr(FriendlyDuplicate(ColumnName(message)))]),
               "Erro na validação de campos.", JBool(false), 409)
  }

  const UnexpectedMessage: string :=
    "Ocorreu um erro interno inesperado. Por favor, tente novamente mais tarde."

  /**
   * `handleUnexpectedError`: 500 with a generic message; the data is an empty
   * list unless debug is on, when it holds error, file and at most five frames.
   */
  function UnexpectedResponse(message: string, file: string, line: int, trace: seq<JsonValue>, debug: bool): (r: Response)
    ensures r.status == 500 && IsFailureEnvelope(r)
    ensures MessageOf(r) == JStr(UnexpectedMessage)
    ensures !debug ==> DataOf(r) == JList([])
    ensures debug ==> var d := DataOf(r);
      && d.JObject? && d.fields.Keys == {"error", "file", "trace"}
      && d.fields["error"] == JStr(message)
      && d.fields["trace"].JList? && |d.fields["trace"].items| <= 5
      && |d.fields["trace"].items| <= |trace|
      && d.fields["trace"].items == trace[..|d.fields["trace"].items|]
      && (|trace| <= 5 ==> d.fields["trace"].items == trace)
  {
    var frames := if |trace| <= 5 then trace else trace[..5];
    var debugData := JObject(map[
      "error" := JStr(message),
      "file" := JStr(file + " (Linha: " + Text.IntToString(line) + ")"),
      "trace" := JList(frames)]);
    ReturnJson(if debug then debugData else JList([]), UnexpectedMessage, JBool(false), 500)
  }

  const NotFoundMessage: string := "Registro ou rota não encontrada."
  const UnauthenticatedMessage: string := "Usuário não autenticado."
  const MethodNotAllowedMessage: string := "Método HTTP não permitido para esta rota."

  /**
   * The render callback. `None` means the callback declines and the framework's
   * default rendering applies: for paths not under `api/`, and for a PHP `\Error`,
   * which the callback's `Exception` type hint does not accept.
   */
  function Render(e: Throwable, path: string, debug: bool): (r: Option<Response>)
    ensures r.Some? <==> IsApiPath(path) && e.IsException()
    ensures r.Some? ==> IsFailureEnvelope(r.value) && IsHttpStatus(r.value.status)
  {
    if !IsApiPath(path) then None
    else match e
      case ValidationException(errors) =>
        Some(ReturnJson(JList(Strings(Flatten(errors))), "Erro de validação dos campos.", JBool(false), 422))
      case UniqueConstraintViolation(m) => Some(UniqueViolationResponse(m))
      case ModelNotFound(_) => Some(ReturnJson(JNull, NotFoundMessage, JBool(false), 404))
      case HttpException(NotFoundHttp, _, _) => Some(ReturnJson(JNull, NotFoundMessage, JBool(false), 404))
      case AuthenticationException(_) => Some(ReturnJson(JNull, UnauthenticatedMessage, JBool(false), 401))
      case HttpException(MethodNotAllowedHttp, _, _) =>
        Some(ReturnJson(JNull, MethodNotAllowedMessage, JBool(false), 405))
      case HttpException(_, code, m) => Some(ReturnJson(JNull, m, JBool(false), code))
      case GenericException(m, file, line, trace) => Some(UnexpectedResponse(m, file, line, trace, debug))
      case TypeError(_) => None
  }

  /** The classification table: the status code each kind of exception gets. */
  lemma RenderStatus(e: Throwable, path: string, debug: bool)
    requires IsApiPath(path) && e.IsException()
    ensures var r := Render(e, path, debug).value;
      && (e.ValidationException? ==> r.status == 422)
      && (e.UniqueConstraintViolation? ==> r.status == 409)
      && (e.ModelNotFound? ==> r.status == 404)
      && (e.AuthenticationException? ==> r.status == 401)
      && (e.HttpException? && e.kind == NotFoundHttp ==> r.status == 404)
      && (e.HttpException? && e.kind == MethodNotAllowedHttp ==> r.status == 405)
      && ((e.HttpException? && e.kind in {AccessDeniedHttp, OtherHttp} && IsHttpStatus(e.statusCode))
            ==> r.status == e.statusCode && MessageOf(r) == JStr(e.message))
      && (e.GenericException? ==> r.status == 500)
  {
  }

  /**
   * The arms are tried in order: a NotFoundHttp or MethodNotAllowed exception
   * gets the fixed message, never its own message or status code.
   */
  lemma SpecificHttpArmsWin(code: int, m: string, path: string, debug: bool)
    requires IsApiPath(path)
    ensures Render(HttpException(NotFoundHttp, code, m), path, debug).value
         == ReturnJson(JNull, NotFoundMessage, JBool(false), 404)
    ensures Render(HttpException(MethodNotAllowedHttp, code, m), path, debug).value
         == ReturnJson(JNull, MethodNotAllowedMessage, JBool(false), 405)
  {
  }

  /** The 422 data lists exactly the messages of all fields. */
  lemma ValidationDataIsAllMessages(errors: seq<FieldErrors>, path: string, debug: bool, m: string)
    requires IsApiPath(path)
    ensures var d := DataOf(Render(ValidationException(errors), path, debug).value);
      d.JList? && (JStr(m) in d.items <==> exists k :: 0 <= k < |errors| && m in errors[k].messages)
  {
    var flat := Flatten(errors);
    var items := Strings(flat);
    if JStr(m) in items {
      var k :| 0 <= k < |items| && items[k] == JStr(m);
      assert flat[k] == m;
    }
    if m in flat {
      var k :| 0 <= k < |flat| && flat[k] == m;
      assert items[k] == JStr(m);
    }
  }

  /** The first `_unique'` after `j`, not crossing a newline, is what FindSuffix finds. */
  lemma FindSuffixFirst(s: string, j: nat, q: nat)
    requires j <= q <= |s| && SuffixAt(s, q) && NoNewline(s, j, q)
    requires forall q' :: j <= q' < q ==> !SuffixAt(s, q')
    ensures FindSuffix(s, j) == Some(q)
  {
  }

  lemma {:induction false} TryDotsReachesDot(s: string, j: nat, k: nat, q: nat)
    requires j <= k < |s| && s[k] == '.' && NoNewline(s, j, k)
    requires forall k' :: j <= k' < k ==> s[k'] != '.'
    requires k + 1 <= q <= |s| && SuffixAt(s, q) && NoNewline(s, k + 1, q)
    requires forall q' :: k + 1 <= q' < q ==> !SuffixAt(s, q')
    ensures TryDots(s, j) == Some(s[k + 1..q])
    decreases k - j
  {
    if j == k {
      FindSuffixFirst(s, k + 1, q);
    } else {
      TryDotsReachesDot(s, j + 1, k, q);
    }
  }

  lemma {:induction false} MatchColumnFirst(s: string, i': nat, i: nat, c: string)
    requires i' <= i <= |s| && ForKeyAt(s, i) && TryDots(s, i + |ForKey|) == Some(c)
    requires forall t :: i' <= t < i ==> !ForKeyAt(s, t)
    ensures MatchColumn(s, i') == Some(c)
    decreases i - i'
  {
    if i' < i {
      MatchColumnFirst(s, i' + 1, i, c);
    }
  }

  /**
   * The capture is the text between the first `.` after the first `for key '`
   * and the first `_unique'` after that dot (none of it crossing a line break);
   * the column reported is that text upper-cased.
   */
  lemma ColumnOfFirstKey(s: string, i: nat, k: nat, q: nat)
    requires ForKeyAt(s, i) && forall t :: 0 <= t < i ==> !ForKeyAt(s, t)
    requires i + |ForKey| <= k < |s| && s[k] == '.' && NoNewline(s, i + |ForKey|, k)
    requires forall k' :: i + |ForKey| <= k' < k ==> s[k'] != '.'
    requires k + 1 <= q <= |s| && SuffixAt(s, q) && NoNewline(s, k + 1, q)
    requires forall q' :: k + 1 <= q' < q ==> !SuffixAt(s, q')
    ensures ColumnName(s) == Text.Upper(s[k + 1..q])
  {
    TryDotsReachesDot(s, i + |ForKey|, k, q);
    MatchColumnFirst(s, 0, i, s[k + 1..q]);
  }

  lemma {:induction false} TryDotsNoSuffix(s: string, k: nat)
    requires k <= |s| && forall q :: 0 <= q <= |s| ==> !SuffixAt(s, q)
    ensures TryDots(s, k) == None
    decreases |s| - k
  {
    if k < |s| && s[k] != '\n' {
      TryDotsNoSuffix(s, k + 1);
    }
  }

  lemma {:induction false} MatchColumnNoSuffix(s: string, i: nat)
    requires i <= |s| && forall q :: 0 <= q <= |s| ==> !SuffixAt(s, q)
    ensures MatchColumn(s, i) == None
    decreases |s| - i
  {
    if ForKeyAt(s, i) {
      TryDotsNoSuffix(s, i + |ForKey|);
    }
    if i < |s| {
      MatchColumnNoSuffix(s, i + 1);
    }
  }

  /** A message that never mentions `_unique'` reports the column REGISTRO. */
  lemma ColumnDefaultsToRegistro(message: string)
    requires forall q :: 0 <= q <= |message| ==> !SuffixAt(message, q)
    ensures ColumnName(message) == DefaultColumn
  {
    MatchColumnNoSuffix(message, 0);
  }

  /**
   * MySQL names the key `table.index`: when the table has no dot and neither
   * part a line break, and the index name has no quote, the column reported
   * is the upper-cased index name without `_unique`.
   */
  lemma KeyColumn(table: string, index: string)
    requires '.' !in table && '\n' !in table
    requires '\n' !in index && '\'' !in index
    ensures ColumnName(ForKey + table + "." + index + UniqueSuffix) == Text.Upper(index)
  {
    var s := ForKey + table + "." + index + UniqueSuffix;
    KeyTableFacts(s, table, index);
    KeyIndexFacts(s, table, index);
    ColumnOfFirstKey(s, 0, |ForKey| + |table|, |ForKey| + |table| + 1 + |index|);
  }

  /** The `for key '` and the dot-free, line-free table name before the dot. */
  lemma KeyTableFacts(s: string, table: string, index: string)
    requires s == ForKey + table + "." + index + UniqueSuffix
    requires '.' !in table && '\n' !in table
    ensures ForKeyAt(s, 0)
    ensures s[|ForKey| + |table|] == '.' && NoNewline(s, |ForKey|, |ForKey| + |table|)
    ensures forall t :: |ForKey| <= t < |ForKey| + |table| ==> s[t] != '.'
  {
    assert s[0..][..|ForKey|] == ForKey;
    forall t | |ForKey| <= t < |ForKey| + |table|
      ensures s[t] == table[t - |ForKey|]
    {}
  }

  /** After the dot: the index name, free of line breaks and of `_unique'`, then `_unique'`. */
  lemma KeyIndexFacts(s: string, table: string, index: string)
    requires s == ForKey + table + "." + index + UniqueSuffix
    requires '\n' !in index && '\'' !in index
    ensures var k := |ForKey| + |table|;
      var q := k + 1 + |index|;
      && s[k + 1..q] == index && SuffixAt(s, q) && NoNewline(s, k + 1, q)
      && forall q' :: k + 1 <= q' < q ==> !SuffixAt(s, q')
  {
    var k := |ForKey| + |table|;
    var q := k + 1 + |index|;
    assert s[q..] == UniqueSuffix;
    assert s[k + 1..q] == index;
    forall t | k + 1 <= t < q
      ensures s[t] == index[t - k - 1]
    {}
    forall q' | k + 1 <= q' < q
      ensures !SuffixAt(s, q')
    {
      NoSuffixBeforeQuote(s, q', q);
    }
  }

  /** `_unique'` ends in a quote: it cannot start before `q` when no quote precedes the one ending at `q`. */
  lemma NoSuffixBeforeQuote(s: string, q': nat, q: nat)
    requires q' < q && SuffixAt(s, q) && forall t :: q' <= t < q ==> s[t] != '\''
    ensures !SuffixAt(s, q')
  {
    var w := q' + |UniqueSuffix| - 1;
    assert s[q..][..|UniqueSuffix|] == UniqueSuffix;
    if w < q {
      assert s[w] != UniqueSuffix[|UniqueSuffix| - 1];
    } else {
      assert s[w] == s[q..][..|UniqueSuffix|][w - q];
      assert s[w] != UniqueSuffix[|UniqueSuffix| - 1];
    }
    assert q' + |UniqueSuffix| <= |s| ==> s[q'..][..|UniqueSuffix|][|UniqueSuffix| - 1] == s[w];
  }

  lemma UpperUsersEmail()
    ensures Text.Upper("users_email") == "USERS_EMAIL"
  {
    var l, u := "users_email", "USERS_EMAIL";
    assert l == ['u', 's', 'e', 'r', 's', '_', 'e', 'm', 'a', 'i', 'l'];
    assert u == ['U', 'S', 'E', 'R', 'S', '_', 'E', 'M', 'A', 'I', 'L'];
    forall k | 0 <= k < 11 ensures Text.UpperChar(l[k]) == u[k] {}
  }

  /** For the users' e-mail index (`users.users_email_unique`) the column reported is USERS_EMAIL. */
  lemma MysqlEmailKeyColumn()
    ensures ColumnName(ForKey + "users.users_email" + UniqueSuffix) == "USERS_EMAIL"
  {
    assert ForKey + "users.users_email" + UniqueSuffix == ForKey + "users" + "." + "users_email" + UniqueSuffix;
    KeyColumn("users", "users_email");
    UpperUsersEmail();
  }
}
