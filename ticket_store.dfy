/**
  The issue-number to ticket-token store of internal/store/ticket_store.go,
  in memory. Tokens are kept under the decimal text of the issue number.
  Writing the file is outside the model: `Set` receives the outcome of
  `save` as a parameter.
*/
module TicketStore {
  import opened Wrappers
  import opened Decimal

  /** Why `save` failed (encoding or writing the file). */
  datatype StoreError = SaveFailed(reason: string)

  /** The map key of an issue number: `fmt.Sprintf("%d", issueNumber)`, which parses back to the number. */
  function Key(issueNumber: int): (key: string)
    ensures Int64Min <= issueNumber <= Int64Max ==> ParseInt64(key) == Some(issueNumber)
  {
    if Int64Min <= issueNumber <= Int64Max then
      ParseFormatRoundTrip(issueNumber);
      FormatInt(issueNumber)
    else FormatInt(issueNumber)
  }

  /** `Validate` as a function of the map: the number has a token and it is `token`. */
  predicate Matches(records: map<string, string>, issueNumber: int, token: string) {
    Key(issueNumber) in records && records[Key(issueNumber)] == token
  }

  /** The map after `Set(issueNumber, token)`. */
  function Stored(records: map<string, string>, issueNumber: int, token: string): map<string, string> {
    records[Key(issueNumber) := token]
  }

  /** Right after `Set(n, t)`, `Validate(n, t')` holds exactly for `t' == t`. */
  lemma SetThenValidate(records: map<string, string>, n: int, t: string, t2: string)
    ensures Matches(Stored(records, n, t), n, t2) <==> t2 == t
  {
  }

  /**
    `Set(n, t)` leaves every other issue number as it was, because distinct
    numbers have distinct decimal keys: a token set for `m` stays valid until
    the next `Set` for `m`.
  */
  lemma SetLeavesOthers(records: map<string, string>, n: int, t: string, m: int, t2: string)
    requires m != n
    ensures Matches(Stored(records, n, t), m, t2) <==> Matches(records, m, t2)
  {
    if Key(m) == Key(n) {
      FormatIntInjective(m, n);
    }
  }

  /** A number that was never set validates no token. */
  lemma UnsetNeverValidates(records: map<string, string>, n: int, t: string)
    requires Key(n) !in records
    ensures !Matches(records, n, t)
  {
  }

  /** `TicketStore`: the records map behind the store's mutex. */
  class TicketStore {
    var records: map<string, string>

    /** An empty store (`NewTicketStore` on a data directory without a tokens file). */
    constructor ()
      ensures records == map[]
    {
      records := map[];
    }

    /**
      `Set`: the map takes the new token first, then `save` runs; its
      outcome is returned, and the new token is live even when it failed.
    */
    method Set(issueNumber: int, token: string, saveOutcome: Outcome<StoreError>) returns (result: Outcome<StoreError>)
      modifies this
      ensures records == Stored(old(records), issueNumber, token)
      ensures result == saveOutcome
    {
      var key := FormatInt(issueNumber);
      records := records[key := token];
      result := saveOutcome;
    }

    /** `Validate`: a read-only lookup. */
    method Validate(issueNumber: int, token: string) returns (ok: bool)
      ensures ok <==> Matches(records, issueNumber, token)
    {
      var key := FormatInt(issueNumber);
      if key !in records {
        return false;
      }
      var saved := records[key];
      return saved == token;
    }
  }
}
