/**
 * The bank: a table from account number to account object, loaded from the
 * ledger file when the bank is built, extended by createAccount, queried by
 * authenticate, and written back to the file in full by saveAccounts.
 */
module Banks {
  import opened Wrappers
  import opened Accounts

  /** The ledger as values: account number to the account's record. */
  type Ledger = map<string, Record>

  /** What `createAccount` reports. */
  datatype CreateOutcome = Created | AlreadyExists

  /**
   * The file `accounts.json`. `None` stands for a file that is missing or
   * cannot be read or parsed; `Some(l)` for a JSON object of account records.
   * Text encoding and JSON syntax are not modelled.
   */
  class LedgerFile {
    var contents: Option<Ledger>

    constructor (contents: Option<Ledger>)
      ensures this.contents == contents
    {
      this.contents := contents;
    }
  }

  /** The ledger `loadAccounts` yields: the stored records, or an empty table when the file cannot be used. */
  function Loaded(contents: Option<Ledger>): (l: Ledger)
  {
    match contents
    case None => map[]
    case Some(stored) => stored
  }

  /** The ledger after `createAccount(k, n, x)`, and its report. */
  function Create(ledger: Ledger, k: string, n: string, x: real): (res: (Ledger, CreateOutcome))
    ensures res.1 == Created <==> k !in ledger
    ensures res.1 == AlreadyExists ==> res.0 == ledger
    ensures res.0.Keys == ledger.Keys + {k}
    ensures res.1 == Created ==> |res.0| == |ledger| + 1 && res.0[k] == Record(k, n, x)
    ensures forall j :: j in ledger ==> j in res.0 && res.0[j] == ledger[j]
  {
    if k in ledger then (ledger, AlreadyExists) else (ledger[k := Record(k, n, x)], Created)
  }

  /** The record `authenticate(k)` finds, if any. */
  function Lookup(ledger: Ledger, k: string): (r: Option<Record>)
  {
    if k in ledger then Some(ledger[k]) else None
  }

  /** After `createAccount(k, n, x)`, authenticating `k` finds the new record if it was created; every other lookup is as before. */
  lemma CreateThenLookup(ledger: Ledger, k: string, n: string, x: real, j: string)
    ensures var (l1, o) := Create(ledger, k, n, x);
            Lookup(l1, j) == if o == Created && j == k then Some(Record(k, n, x)) else Lookup(ledger, j)
  {
  }

  /** Creating the same account number twice: the second call is refused and changes nothing. */
  lemma CreateTwice(ledger: Ledger, k: string, n: string, x: real, n': string, x': real)
    requires k !in ledger
    ensures var (l1, o1) := Create(ledger, k, n, x);
            var (l2, o2) := Create(l1, k, n', x');
            o1 == Created && o2 == AlreadyExists && l2 == l1 && Lookup(l2, k) == Some(Record(k, n, x))
  {
  }

  /** Each key of the table holds its own account object. */
  ghost predicate Distinct(accounts: map<string, Account>)
  {
    forall j, k :: j in accounts && k in accounts && j != k ==> accounts[j] != accounts[k]
  }

  /** The records of a table of account objects. */
  function Views(accounts: map<string, Account>): (l: Ledger)
    reads accounts.Values
  {
    map k | k in accounts :: accounts[k].View()
  }

  class Bank {
    /** `this.accounts`: account number to account object. */
    var accounts: map<string, Account>
    /** The file the ledger is loaded from and saved to. */
    const file: LedgerFile

    ghost predicate Valid()
      reads this
    {
      Distinct(accounts)
    }

    /** The ledger the bank currently holds. */
    function Ledger(): (l: Ledger)
      reads this, accounts.Values
    {
      Views(accounts)
    }

    /** `new Bank()`: the table is whatever `loadAccounts` reads from the file. */
    constructor (file: LedgerFile)
      ensures this.file == file && Valid()
      ensures Ledger() == Loaded(file.contents)
    {
      var loaded := LoadAccounts(file);
      this.file := file;
      accounts := loaded;
    }

    /**
     * `loadAccounts()`: builds one account object per stored entry, with the
     * stored number, name and amount; an unusable file gives an empty table.
     */
    static method LoadAccounts(file: LedgerFile) returns (accounts: map<string, Account>)
      ensures Views(accounts) == Loaded(file.contents)
      ensures Distinct(accounts)
    {
      accounts := map[];
      if file.contents.Some? {
        var stored := file.contents.value;
        var pending := stored.Keys;
        while pending != {}
          invariant pending <= stored.Keys
          invariant accounts.Keys == stored.Keys - pending
          invariant forall k :: k in accounts ==> accounts[k].View() == stored[k]
          invariant Distinct(accounts)
          decreases pending
        {
          var key :| key in pending;
          var entry := stored[key];
          var account := new Account(entry.accountNumber, entry.name, entry.amount);
          accounts := accounts[key := account];
          pending := pending - {key};
        }
      }
    }

    /** `saveAccounts()`: overwrites the file with the whole current ledger. */
    method SaveAccounts()
      modifies file
      ensures file.contents == Some(Ledger())
    {
      file.contents := Some(Ledger());
    }

    /**
     * `createAccount(accountNumber, name, initialAmount)`: refuses a number that
     * is already present and changes nothing; otherwise adds a new account under
     * that number, leaves every other entry as it was and saves the ledger.
     */
    method CreateAccount(accountNumber: string, name: string, initialAmount: real) returns (outcome: CreateOutcome)
      requires Valid()
      modifies this, file
      ensures Valid()
      ensures (Ledger(), outcome) == Create(old(Ledger()), accountNumber, name, initialAmount)
      ensures outcome == Created ==>
                accountNumber in accounts && fresh(accounts[accountNumber])
                && accounts == old(accounts)[accountNumber := accounts[accountNumber]]
                && file.contents == Some(Ledger())
      ensures outcome == AlreadyExists ==> accounts == old(accounts) && unchanged(file)
    {
      if accountNumber in accounts {
        outcome := AlreadyExists;
      } else {
        ghost var before := Ledger();
        var account := new Account(accountNumber, name, initialAmount);
        accounts := accounts[accountNumber := account];
        ghost var after := before[accountNumber := Record(accountNumber, name, initialAmount)];
        assert Ledger() == after;
        SaveAccounts();
        assert Ledger() == after;
        outcome := Created;
      }
    }

    /** `authenticate(accountNumber)`: the stored account object, or `null` when the number is not in the table. */
    method Authenticate(accountNumber: string) returns (account: Account?)
      ensures account != null <==> accountNumber in accounts
      ensures account != null ==> account == accounts[accountNumber]
      ensures Lookup(Ledger(), accountNumber) == (if account == null then None else Some(account.View()))
    {
      if accountNumber in accounts {
        account := accounts[accountNumber];
      } else {
        account := null;
      }
    }
  }

  // The source tests presence with `this.accounts[accountNumber]` on a plain
  // JavaScript object, so members inherited from Object.prototype are found too.

  /** The properties every plain JavaScript object inherits from Object.prototype. */
  const InheritedNames: set<string> := {
    "constructor", "__proto__", "toString", "toLocaleString", "valueOf",
    "hasOwnProperty", "isPrototypeOf", "propertyIsEnumerable",
    "__defineGetter__", "__defineSetter__", "__lookupGetter__", "__lookupSetter__"
  }

  /** Whether `this.accounts[k]` is truthy in the source: an own entry or an inherited member. */
  predicate FoundAsWritten(ledger: Ledger, k: string)
  {
    k in ledger || k in InheritedNames
  }

  /** `createAccount` exactly as written: it refuses whenever the lookup is truthy. */
  function CreateAsWritten(ledger: Ledger, k: string, n: string, x: real): (res: (Ledger, CreateOutcome))
  {
    if FoundAsWritten(ledger, k) then (ledger, AlreadyExists) else (ledger[k := Record(k, n, x)], Created)
  }

  /** On an empty ledger, the number "toString" is refused as already existing, though no account has it. */
  lemma InheritedNameBlocksCreate(n: string, x: real)
    ensures var empty: Ledger := map[];
            "toString" !in empty
            && CreateAsWritten(empty, "toString", n, x).1 == AlreadyExists
            && Create(empty, "toString", n, x).1 == Created
  {
  }

  /** On an empty ledger, authenticating "constructor" succeeds as written, though no account has it. */
  lemma InheritedNameAuthenticates()
    ensures var empty: Ledger := map[];
            FoundAsWritten(empty, "constructor") && Lookup(empty, "constructor") == None
  {
  }
}
