/**
 * The field extraction of the profile scrapers: the lab ingestion script
 * (parse_and_save_data_single) and the parser service task (parse_url), with the
 * HTTP fetch replaced by its status code and body. Python's str.split with a
 * multi-character separator, str.replace, str.lower and int() are written out.
 */
module HtmlExtract {
  import opened Results
  import opened PyStrings

  const TitleOpen: string := "<title itemprop=\"headline\">"
  const TitleClose: string := "</title>"
  const WealthOpen: string := "profile-info__item-value\">$"
  const WealthClose: string := "B</div>"
  const EmailDomain: string := "@example.com"
  const DefaultPassword: string := "12345678"
  const AccountCurrency: string := "USD"
  const WealthCategoryId: string := "730864ac-e174-4996-99c1-1caf8b934202"
  const TransferDescription: string := "Initial wealth transfer"

  /** Why a scrape stops: resp.raise_for_status(), an index past the end of a split
      list, or int() on a string that is not a number. */
  datatype ScrapeError = HttpStatus(status: int) | IndexError | ValueError

  /** requests' raise_for_status raises for client (4xx) and server (5xx) errors only. */
  predicate RaisesForStatus(status: int) {
    400 <= status < 600
  }

  /** `t` is the text after the leftmost `open` of `s`, cut at the next `open`, and
      that piece cut again at its own first `close`: a closing marker counts only
      when it ends before the next opening marker. */
  predicate FieldAfterFirst(s: string, open: string, close: string, t: string)
    requires open != [] && close != [] && Contains(s, open)
  {
    var i := Find(s, open).value;
    var rest := s[i + |open|..];
    t == Before(Before(rest, open), close)
  }

  lemma SecondPieceHead(s: string, open: string, close: string)
    requires open != [] && close != [] && Contains(s, open)
    ensures var t := Split(Split(s, open)[1], close)[0];
      FieldAfterFirst(s, open, close, t) && !Contains(t, open) && !Contains(t, close)
  {
    var i := Find(s, open).value;
    var rest := s[i + |open|..];
    assert Split(s, open)[1] == Split(rest, open)[0];
    var seg := Split(rest, open)[0];
    var t := Split(seg, close)[0];
    SplitHead(rest, open);
    SplitHead(seg, close);
    PrefixFree(t, seg, close);
    assert t <= rest;
    PrefixFree(t, rest, open);
  }

  /** s.split(open)[1].split(close)[0]; None stands for the IndexError raised when
      `open` does not occur in s. */
  function ExtractBetween(s: string, open: string, close: string): (r: Option<string>)
    requires open != [] && close != []
    ensures r.None? <==> !Contains(s, open)
    ensures r.Some? ==> FieldAfterFirst(s, open, close, r.value)
    ensures r.Some? ==> !Contains(r.value, open) && !Contains(r.value, close)
  {
    var parts := Split(s, open);
    if |parts| < 2 then None
    else
      SecondPieceHead(s, open, close);
      Some(Split(parts[1], close)[0])
  }

  /** `wealth.replace('.', '') if wealth else '0'`: the emptiness test comes before the
      replacement, so an all-dots wealth string becomes "" rather than "0". */
  function NormalizeWealth(w: string): (r: string)
    ensures '.' !in r
    ensures w == [] ==> r == "0"
    ensures w != [] ==> (r == [] <==> forall k :: 0 <= k < |w| ==> w[k] == '.')
    ensures w != [] ==> r == RemoveChar(w, '.')
  {
    if w != [] then RemoveChar(w, '.') else "0"
  }

  /** title.replace(" ", "_").lower() */
  function Username(title: string): (u: string)
    ensures |u| == |title|
    ensures ' ' !in u && !HasUpper(u)
    ensures forall k :: 0 <= k < |title| && title[k] == ' ' ==> u[k] == '_'
    ensures forall k :: 0 <= k < |title| && title[k] != ' ' ==> u[k] == LowerChar(title[k])
  {
    seq(|title|, k requires 0 <= k < |title| => LowerChar(if title[k] == ' ' then '_' else title[k]))
  }

  /** Deriving a username from a username changes nothing. */
  lemma UsernameIdempotent(title: string)
    ensures Username(Username(title)) == Username(title)
  {
    var u := Username(title);
    assert forall k :: 0 <= k < |u| ==> Username(u)[k] == u[k];
  }

  // ---------------------------------------------------------------------------
  // The two scrapers

  datatype UserCreate = UserCreate(username: string, email: string, password: string)
  datatype AccountCreate = AccountCreate(name: string, balance: int, currency: string)
  datatype TransactionCreate = TransactionCreate(amount: int, categoryId: string, description: string)

  /** The three requests parse_and_save_data_single sends for one profile page. */
  datatype Ingestion = Ingestion(user: UserCreate, account: AccountCreate, transaction: TransactionCreate)

  /** The extraction part of parse_and_save_data_single for a fetched page with HTTP
      status `status` and body `html`. */
  function ParseAndSaveDataSingle(status: int, html: string): (r: Result<Ingestion, ScrapeError>)
    ensures RaisesForStatus(status) ==> r == Err(HttpStatus(status))
    ensures !RaisesForStatus(status) && !Contains(html, TitleOpen) ==> r == Err(IndexError)
    ensures !RaisesForStatus(status) && Contains(html, TitleOpen) && !Contains(html, WealthOpen)
      ==> r == Err(IndexError)
    ensures r.Ok? <==>
      (&& !RaisesForStatus(status)
       && Contains(html, TitleOpen) && Contains(html, WealthOpen)
       && ParseInt(NormalizeWealth(ExtractBetween(html, WealthOpen, WealthClose).value)).Some?)
    ensures r.Ok? ==>
      && Some(r.value.account.name) == ExtractBetween(html, TitleOpen, TitleClose)
      && ' ' !in r.value.user.username
      && r.value.user.username == Username(r.value.account.name)
      && r.value.user.email == r.value.user.username + EmailDomain
      && r.value.user.password == DefaultPassword
      && r.value.account.currency == AccountCurrency
      && r.value.account.balance >= 0
      && r.value.transaction.amount == r.value.account.balance
      && r.value.transaction.categoryId == WealthCategoryId
      && r.value.transaction.description == TransferDescription
    ensures r.Ok? ==>
      && Contains(html, WealthOpen)
      && Some(r.value.account.balance) == ParseInt(NormalizeWealth(ExtractBetween(html, WealthOpen, WealthClose).value))
  {
    if RaisesForStatus(status) then Err(HttpStatus(status))
    else match ExtractBetween(html, TitleOpen, TitleClose)
      case None => Err(IndexError)
      case Some(title) =>
        match ExtractBetween(html, WealthOpen, WealthClose)
        case None => Err(IndexError)
        case Some(rawWealth) =>
          match ParseInt(NormalizeWealth(rawWealth))
          case None => Err(ValueError)
          case Some(wealth) =>
            var username := Username(title);
            Ok(Ingestion(
              UserCreate(username, username + EmailDomain, DefaultPassword),
              AccountCreate(title, wealth, AccountCurrency),
              TransactionCreate(wealth, WealthCategoryId, TransferDescription)))
  }

  /** A page that reaches int() fails there exactly when the normalised wealth is
      empty or holds a character other than a digit. */
  lemma WealthValueError(status: int, html: string)
    requires !RaisesForStatus(status)
    requires Contains(html, TitleOpen) && Contains(html, WealthOpen)
    ensures var w := NormalizeWealth(ExtractBetween(html, WealthOpen, WealthClose).value);
      ParseAndSaveDataSingle(status, html) == Err(ValueError) <==> w == [] || !AllDigits(w)
  {
  }

  /** parse_url: the same two fields, returned as a dictionary of strings; the wealth
      is not converted to an integer. */
  function ParseUrl(status: int, html: string): (r: Result<map<string, string>, ScrapeError>)
    ensures RaisesForStatus(status) ==> r == Err(HttpStatus(status))
    ensures !RaisesForStatus(status) ==>
      (r.Ok? <==> Contains(html, TitleOpen) && Contains(html, WealthOpen))
    ensures r.Err? && !RaisesForStatus(status) ==> r == Err(IndexError)
    ensures r.Ok? ==>
      && r.value.Keys == {"title", "wealth"}
      && Some(r.value["title"]) == ExtractBetween(html, TitleOpen, TitleClose)
      && '.' !in r.value["wealth"]
    ensures r.Ok? ==>
      && Contains(html, WealthOpen)
      && r.value["wealth"] == NormalizeWealth(ExtractBetween(html, WealthOpen, WealthClose).value)
  {
    if RaisesForStatus(status) then Err(HttpStatus(status))
    else
          match ExtractBetween(html, TitleOpen, TitleClose)
      case None => Err(IndexError)
      case Some(title) =>
        match ExtractBetween(html, WealthOpen, WealthClose)
        case None => Err(IndexError)
        case Some(rawWealth) => Ok(map["title" := title, "wealth" := NormalizeWealth(rawWealth)])
  }

  /** Both scrapers read the same title from the same page. */
  lemma ScrapersAgreeOnTitle(status: int, html: string)
    requires ParseAndSaveDataSingle(status, html).Ok?
    ensures ParseUrl(status, html).Ok?
    ensures ParseUrl(status, html).value["title"] == ParseAndSaveDataSingle(status, html).value.account.name
    ensures ParseInt(ParseUrl(status, html).value["wealth"])
      == Some(ParseAndSaveDataSingle(status, html).value.account.balance)
  {
  }
}
