/**
 * A bank customer: contact details, the hash of the PIN, and the list of the
 * customer's accounts. The C++ class keeps `Account*` handles; here the list holds
 * account records (Accounts.AccountRecord), so the customer's list is the
 * only copy of each account the model sees. The registration date is a
 * parameter instead of a read of the system clock.
 */
module Customers {
  import opened Wrappers
  import opened Utilities
  import opened Accounts

  datatype CustomerRecord = CustomerRecord(
    customerId: string,
    name: string,
    address: string,
    phoneNumber: string,
    email: string,
    hashedPin: string,
    accounts: seq<AccountRecord>,
    registrationDate: string,
    active: bool)

  // ---------------------------------------------------------------------------
  // The account list
  // ---------------------------------------------------------------------------

  /** No two accounts in the list share a number. */
  predicate UniqueNumbers(s: seq<AccountRecord>)
  {
    forall i, j :: 0 <= i < j < |s| ==> s[i].accountNumber != s[j].accountNumber
  }

  predicate HasNumber(s: seq<AccountRecord>, n: string)
  {
    exists i :: 0 <= i < |s| && s[i].accountNumber == n
  }

  /** What addAccount keeps true: numbers are unique and every account belongs to this customer. */
  predicate CustomerValid(c: CustomerRecord)
  {
    UniqueNumbers(c.accounts)
    && forall i :: 0 <= i < |c.accounts| ==> c.accounts[i].customerId == c.customerId
  }

  /** findAccount: the first account with the number, scanning front to back. */
  function Find(s: seq<AccountRecord>, n: string): Option<AccountRecord>
  {
    if |s| == 0 then None
    else if s[0].accountNumber == n then Some(s[0])
    else Find(s[1..], n)
  }

  /** findAccount finds an account exactly when one has the number, and then the first one. */
  lemma {:induction false} FindFacts(s: seq<AccountRecord>, n: string)
    ensures Find(s, n).Some? <==> HasNumber(s, n)
    ensures Find(s, n).Some? ==>
      exists i :: 0 <= i < |s| && s[i] == Find(s, n).value && s[i].accountNumber == n
        && forall k :: 0 <= k < i ==> s[k].accountNumber != n
  {
    if |s| > 0 && s[0].accountNumber != n {
      FindFacts(s[1..], n);
      if HasNumber(s, n) {
        var i :| 0 <= i < |s| && s[i].accountNumber == n;
        assert s[1..][i - 1].accountNumber == n;
      }
      if Find(s, n).Some? {
        var i :| 0 <= i < |s[1..]| && s[1..][i] == Find(s[1..], n).value && s[1..][i].accountNumber == n
          && forall k :: 0 <= k < i ==> s[1..][k].accountNumber != n;
        assert s[i + 1] == s[1..][i];
        forall k | 0 <= k < i + 1
          ensures s[k].accountNumber != n
        {
          if k > 0 {
            assert s[k] == s[1..][k - 1];
          }
        }
      }
    }
  }

  /** getAccountsByType: the accounts of one type, in list order. */
  function OfType(s: seq<AccountRecord>, t: AccountType): seq<AccountRecord>
  {
    if |s| == 0 then []
    else OfType(s[..|s| - 1], t) + (if s[|s| - 1].accountType == t then [s[|s| - 1]] else [])
  }

  /** The filter keeps exactly the accounts of the type. */
  lemma {:induction false} OfTypeMembers(s: seq<AccountRecord>, t: AccountType)
    ensures forall a :: a in OfType(s, t) <==> a in s && a.accountType == t
    ensures |OfType(s, t)| <= |s|
  {
    if |s| > 0 {
      OfTypeMembers(s[..|s| - 1], t);
      assert s == s[..|s| - 1] + [s[|s| - 1]];
    }
  }

  /** The filter keeps list order: filtering a concatenation filters each part. */
  lemma {:induction false} OfTypeAppend(a: seq<AccountRecord>, b: seq<AccountRecord>, t: AccountType)
    ensures OfType(a + b, t) == OfType(a, t) + OfType(b, t)
    decreases |b|
  {
    if |b| == 0 {
      assert a + b == a;
    } else {
      assert (a + b)[..|a + b| - 1] == a + b[..|b| - 1];
      OfTypeAppend(a, b[..|b| - 1], t);
    }
  }

  /** removeAccount's remove_if/erase: every account with the number goes, the rest keep their order. */
  function Without(s: seq<AccountRecord>, n: string): seq<AccountRecord>
  {
    if |s| == 0 then []
    else Without(s[..|s| - 1], n) + (if s[|s| - 1].accountNumber != n then [s[|s| - 1]] else [])
  }

  lemma {:induction false} WithoutAppend(a: seq<AccountRecord>, b: seq<AccountRecord>, n: string)
    ensures Without(a + b, n) == Without(a, n) + Without(b, n)
    decreases |b|
  {
    if |b| == 0 {
      assert a + b == a;
    } else {
      assert (a + b)[..|a + b| - 1] == a + b[..|b| - 1];
      WithoutAppend(a, b[..|b| - 1], n);
    }
  }

  lemma {:induction false} WithoutAbsent(s: seq<AccountRecord>, n: string)
    requires forall k :: 0 <= k < |s| ==> s[k].accountNumber != n
    ensures Without(s, n) == s
  {
    if |s| > 0 {
      WithoutAbsent(s[..|s| - 1], n);
      assert s == s[..|s| - 1] + [s[|s| - 1]];
    }
  }

  /** With unique numbers, the accounts before and after the one numbered n have other numbers. */
  lemma UniqueSplit(s: seq<AccountRecord>, n: string, i: nat)
    requires UniqueNumbers(s) && i < |s| && s[i].accountNumber == n
    ensures forall k :: 0 <= k < |s| && k != i ==> s[k].accountNumber != n
  {
  }

  /** When only the account at i has the number, removing the number takes out exactly that account. */
  lemma WithoutUnique(s: seq<AccountRecord>, n: string, i: nat)
    requires i < |s| && s[i].accountNumber == n
    requires forall k :: 0 <= k < |s| && k != i ==> s[k].accountNumber != n
    ensures Without(s, n) == s[..i] + s[i + 1..]
  {
    var pre, post := s[..i], s[i + 1..];
    SplitAt(s, i);
    assert forall k :: 0 <= k < |pre| ==> pre[k] == s[k];
    assert forall k :: 0 <= k < |post| ==> post[k] == s[i + 1 + k];
    WithoutAbsent(pre, n);
    WithoutAbsent(post, n);
    assert (pre + [s[i]])[..|pre|] == pre;
    assert Without(pre + [s[i]], n) == pre;
    WithoutAppend(pre + [s[i]], post, n);
  }

  lemma SplitAt(s: seq<AccountRecord>, i: nat)
    requires i < |s|
    ensures s == s[..i] + [s[i]] + s[i + 1..]
  {
  }

  /** getTotalBalance: the sum of the balances, in list order. */
  function TotalBalance(s: seq<AccountRecord>): real
  {
    if |s| == 0 then 0.0 else TotalBalance(s[..|s| - 1]) + s[|s| - 1].balance
  }

  /** getTotalActiveAccounts: how many accounts are active. */
  function ActiveCount(s: seq<AccountRecord>): nat
  {
    if |s| == 0 then 0 else ActiveCount(s[..|s| - 1]) + (if s[|s| - 1].active then 1 else 0)
  }

  /** The account types are exactly two, so the savings and checking totals add up to the total. */
  lemma {:induction false} TotalsSplit(s: seq<AccountRecord>)
    ensures TotalBalance(s) == TotalBalance(OfType(s, SAVINGS)) + TotalBalance(OfType(s, CHECKING))
  {
    if |s| > 0 {
      var init, last := s[..|s| - 1], s[|s| - 1];
      TotalsSplit(init);
      TotalAppend(OfType(init, SAVINGS), if last.accountType == SAVINGS then [last] else []);
      TotalAppend(OfType(init, CHECKING), if last.accountType == CHECKING then [last] else []);
      assert [last][..0] == [];
    }
  }

  lemma {:induction false} TotalAppend(a: seq<AccountRecord>, b: seq<AccountRecord>)
    ensures TotalBalance(a + b) == TotalBalance(a) + TotalBalance(b)
    decreases |b|
  {
    if |b| == 0 {
      assert a + b == a;
    } else {
      assert (a + b)[..|a + b| - 1] == a + b[..|b| - 1];
      TotalAppend(a, b[..|b| - 1]);
    }
  }

  /** No more accounts are active than there are accounts; with none active the count is 0. */
  lemma {:induction false} ActiveCountBounds(s: seq<AccountRecord>)
    ensures ActiveCount(s) <= |s|
    ensures ActiveCount(s) == 0 <==> forall i :: 0 <= i < |s| ==> !s[i].active
  {
    if |s| > 0 {
      ActiveCountBounds(s[..|s| - 1]);
      if ActiveCount(s) == 0 {
        forall i | 0 <= i < |s|
          ensures !s[i].active
        {
          if i < |s| - 1 {
            assert s[..|s| - 1][i] == s[i];
          }
        }
      }
    }
  }

  // ---------------------------------------------------------------------------
  // Construction and the operations that change the customer
  // ---------------------------------------------------------------------------

  /** The constructor throws unless every field is non-empty and the email is valid; the phone is not checked. */
  predicate Registrable(id: string, customerName: string, addr: string, phone: string, mail: string, pin: string)
  {
    |id| > 0 && |customerName| > 0 && |addr| > 0 && |phone| > 0 && |mail| > 0 && |pin| > 0
    && IsValidEmail(mail)
  }

  function NewCustomer(id: string, customerName: string, addr: string, phone: string, mail: string, pin: string,
                       today: string): CustomerRecord
  {
    CustomerRecord(id, customerName, addr, phone, mail, SimpleHashOf(pin), [], today, true)
  }

  /** addAccount: a missing account, a number already held or another customer's account is turned away. */
  function AddAccountSpec(c: CustomerRecord, account: Option<AccountRecord>): CustomerRecord
  {
    if account.None? then c
    else if Find(c.accounts, account.value.accountNumber).Some? then c
    else if account.value.customerId != c.customerId then c
    else c.(accounts := c.accounts + [account.value])
  }

  /** removeAccount: false for an empty or absent number, else the account leaves the list. */
  function RemoveAccountSpec(c: CustomerRecord, n: string): (bool, CustomerRecord)
  {
    if |n| == 0 then (false, c)
    else if Find(c.accounts, n).None? then (false, c)
    else (true, c.(accounts := Without(c.accounts, n)))
  }

  /** verifyPin: an empty input fails; otherwise the hashes are compared. */
  function VerifyPinSpec(c: CustomerRecord, inputPin: string): bool
  {
    |inputPin| > 0 && SimpleHashOf(inputPin) == c.hashedPin
  }

  /** changePin: the old PIN must verify and the new one have at least four characters. */
  function ChangePinSpec(c: CustomerRecord, oldPin: string, newPin: string): (bool, CustomerRecord)
  {
    if !VerifyPinSpec(c, oldPin) then (false, c)
    else if |newPin| == 0 || |newPin| < 4 then (false, c)
    else (true, c.(hashedPin := SimpleHashOf(newPin)))
  }

  /** updateContactInfo: a non-empty email or phone must be valid; empty values are stored as they are. */
  function UpdateContactSpec(c: CustomerRecord, newAddress: string, newPhone: string, newEmail: string): CustomerRecord
  {
    if |newEmail| > 0 && !IsValidEmail(newEmail) then c
    else if |newPhone| > 0 && !ValidPhone(newPhone) then c
    else c.(address := newAddress, phoneNumber := newPhone, email := newEmail)
  }

  /** Every account of the list, switched off. */
  function Deactivated(s: seq<AccountRecord>): seq<AccountRecord>
  {
    seq(|s|, i requires 0 <= i < |s| => Accounts.SetActiveSpec(s[i], false))
  }

  /** setActive: deactivating the customer deactivates every account; activating touches only the flag. */
  function SetCustomerActiveSpec(c: CustomerRecord, status: bool): CustomerRecord
  {
    if status then c.(active := true) else c.(active := false, accounts := Deactivated(c.accounts))
  }

  // ---------------------------------------------------------------------------
  // Properties
  // ---------------------------------------------------------------------------

  /** A new customer is active, valid, has no accounts, and the PIN given at registration verifies. */
  lemma NewCustomerFacts(id: string, customerName: string, addr: string, phone: string, mail: string, pin: string,
                         today: string)
    requires Registrable(id, customerName, addr, phone, mail, pin)
    ensures var c := NewCustomer(id, customerName, addr, phone, mail, pin, today);
      c.active && c.accounts == [] && CustomerValid(c) && VerifyPinSpec(c, pin) && IsValidEmail(c.email)
  {
  }

  /**
   * addAccount appends exactly when the account is present, its number is new
   * and it belongs to this customer; otherwise the customer is unchanged. It
   * keeps numbers unique and every account this customer's.
   */
  lemma AddAccountFacts(c: CustomerRecord, account: Option<AccountRecord>)
    requires CustomerValid(c)
    ensures var accepted := account.Some? && !HasNumber(c.accounts, account.value.accountNumber)
        && account.value.customerId == c.customerId;
      (accepted ==> AddAccountSpec(c, account) == c.(accounts := c.accounts + [account.value]))
      && (!accepted ==> AddAccountSpec(c, account) == c)
    ensures CustomerValid(AddAccountSpec(c, account))
  {
    if account.Some? {
      FindFacts(c.accounts, account.value.accountNumber);
    }
  }

  /**
   * removeAccount fails and changes nothing for an empty or absent number.
   * Otherwise it succeeds, the account count drops by one, the number is gone,
   * and the other accounts stay in their order.
   */
  lemma RemoveAccountFacts(c: CustomerRecord, n: string)
    requires CustomerValid(c)
    ensures RemoveAccountSpec(c, n).0 <==> |n| > 0 && HasNumber(c.accounts, n)
    ensures !RemoveAccountSpec(c, n).0 ==> RemoveAccountSpec(c, n).1 == c
    ensures RemoveAccountSpec(c, n).0 ==>
      var r := RemoveAccountSpec(c, n).1;
      |r.accounts| == |c.accounts| - 1 && !HasNumber(r.accounts, n)
      && (exists i :: 0 <= i < |c.accounts| && c.accounts[i].accountNumber == n
            && r.accounts == c.accounts[..i] + c.accounts[i + 1..])
      && r.(accounts := c.accounts) == c
    ensures CustomerValid(RemoveAccountSpec(c, n).1)
  {
    FindFacts(c.accounts, n);
    if RemoveAccountSpec(c, n).0 {
      var i :| 0 <= i < |c.accounts| && c.accounts[i].accountNumber == n;
      RemoveAt(c, n, i);
    }
  }

  /** Removing the number held by the account at i takes out that account and keeps the customer valid. */
  lemma RemoveAt(c: CustomerRecord, n: string, i: nat)
    requires CustomerValid(c) && i < |c.accounts| && c.accounts[i].accountNumber == n
    ensures Without(c.accounts, n) == c.accounts[..i] + c.accounts[i + 1..]
    ensures !HasNumber(Without(c.accounts, n), n)
    ensures CustomerValid(c.(accounts := Without(c.accounts, n)))
  {
    UniqueSplit(c.accounts, n, i);
    WithoutUnique(c.accounts, n, i);
    var r := c.accounts[..i] + c.accounts[i + 1..];
    forall k | 0 <= k < |r|
      ensures r[k] == c.accounts[if k < i then k else k + 1]
    {
    }
    assert !HasNumber(r, n);
  }

  /** Removing an account just added gives the customer back. */
  lemma AddRemoveRoundTrip(c: CustomerRecord, account: AccountRecord)
    requires CustomerValid(c) && |account.accountNumber| > 0
    requires !HasNumber(c.accounts, account.accountNumber) && account.customerId == c.customerId
    ensures RemoveAccountSpec(AddAccountSpec(c, Some(account)), account.accountNumber) == (true, c)
  {
    var n := account.accountNumber;
    var s := c.accounts + [account];
    AddAccountFacts(c, Some(account));
    assert s[..|c.accounts|] == c.accounts;
    WithoutAbsent(c.accounts, n);
    assert Without(s, n) == c.accounts;
    assert s[|c.accounts|].accountNumber == n;
    FindFacts(s, n);
  }

  /**
   * changePin succeeds exactly when the old PIN verifies and the new PIN has
   * at least four characters; then the new PIN verifies, and so does any
   * other input hashing to the same 64-bit value, and nothing else changed.
   */
  lemma ChangePinFacts(c: CustomerRecord, oldPin: string, newPin: string, attempt: string)
    ensures ChangePinSpec(c, oldPin, newPin).0 <==> VerifyPinSpec(c, oldPin) && |newPin| >= 4
    ensures !ChangePinSpec(c, oldPin, newPin).0 ==> ChangePinSpec(c, oldPin, newPin).1 == c
    ensures ChangePinSpec(c, oldPin, newPin).0 ==>
      var r := ChangePinSpec(c, oldPin, newPin).1;
      VerifyPinSpec(r, newPin) && r.(hashedPin := c.hashedPin) == c
      && (|attempt| > 0 ==> (VerifyPinSpec(r, attempt) <==> HashFold(attempt) == HashFold(newPin)))
  {
    if |attempt| > 0 && |newPin| > 0 {
      SimpleHashEqualIff(attempt, newPin);
    }
  }

  /**
   * updateContactInfo overwrites all three fields when the non-empty email and
   * phone are valid, and changes nothing otherwise.
   */
  lemma UpdateContactFacts(c: CustomerRecord, newAddress: string, newPhone: string, newEmail: string)
    ensures var ok := (|newEmail| == 0 || IsValidEmail(newEmail)) && (|newPhone| == 0 || ValidPhone(newPhone));
      var r := UpdateContactSpec(c, newAddress, newPhone, newEmail);
      (ok ==> r.address == newAddress && r.phoneNumber == newPhone && r.email == newEmail
              && r.(address := c.address, phoneNumber := c.phoneNumber, email := c.email) == c)
      && (!ok ==> r == c)
    ensures CustomerValid(c) ==> CustomerValid(UpdateContactSpec(c, newAddress, newPhone, newEmail))
  {
  }

  /**
   * setActive(false) leaves no account active but keeps the list otherwise as
   * it was; setActive(true) changes only the customer's flag.
   */
  lemma SetActiveFacts(c: CustomerRecord, status: bool)
    ensures SetCustomerActiveSpec(c, status).active == status
    ensures status ==> SetCustomerActiveSpec(c, status) == c.(active := true)
    ensures !status ==>
      var s := SetCustomerActiveSpec(c, status).accounts;
      |s| == |c.accounts| && ActiveCount(s) == 0
      && (forall i :: 0 <= i < |s| ==> s[i].(active := c.accounts[i].active) == c.accounts[i])
      && TotalBalance(s) == TotalBalance(c.accounts)
    ensures CustomerValid(c) ==> CustomerValid(SetCustomerActiveSpec(c, status))
  {
    if !status {
      var s := Deactivated(c.accounts);
      ActiveCountBounds(s);
      DeactivatedTotal(c.accounts);
      assert CustomerValid(c) ==> UniqueNumbers(s) by {
        assert forall i :: 0 <= i < |s| ==> s[i].accountNumber == c.accounts[i].accountNumber;
      }
    }
  }

  lemma {:induction false} DeactivatedTotal(s: seq<AccountRecord>)
    ensures TotalBalance(Deactivated(s)) == TotalBalance(s)
  {
    if |s| > 0 {
      assert Deactivated(s)[..|s| - 1] == Deactivated(s[..|s| - 1]);
      DeactivatedTotal(s[..|s| - 1]);
    }
  }

  // ---------------------------------------------------------------------------
  // The customer object
  // ---------------------------------------------------------------------------

  class Customer {
    const customerId: string
    const name: string
    const registrationDate: string
    var address: string
    var phoneNumber: string
    var email: string
    var hashedPin: string
    var accounts: seq<AccountRecord>
    var active: bool

    function State(): CustomerRecord
      reads this
    {
      CustomerRecord(customerId, name, address, phoneNumber, email, hashedPin, accounts, registrationDate, active)
    }

    /**
     * The constructor; its throw on missing fields or a bad email is the
     * precondition. today stands for getCurrentDate().
     */
    constructor (id: string, customerName: string, addr: string, phone: string, mail: string, pin: string,
                 today: string)
      requires Registrable(id, customerName, addr, phone, mail, pin)
      ensures State() == NewCustomer(id, customerName, addr, phone, mail, pin, today)
    {
      var hash := SimpleHash(pin);
      customerId := id;
      name := customerName;
      address := addr;
      phoneNumber := phone;
      email := mail;
      hashedPin := hash;
      registrationDate := today;
      active := true;
      accounts := [];
    }

    method FindAccount(accountNumber: string) returns (r: Option<AccountRecord>)
      ensures r == Find(accounts, accountNumber)
    {
      var i := 0;
      while i < |accounts|
        invariant 0 <= i <= |accounts|
        invariant Find(accounts, accountNumber) == Find(accounts[i..], accountNumber)
      {
        assert accounts[i..][1..] == accounts[i + 1..];
        if accounts[i].accountNumber == accountNumber {
          return Some(accounts[i]);
        }
        i := i + 1;
      }
      return None;
    }

    method HasAccount(accountNumber: string) returns (b: bool)
      ensures b <==> HasNumber(accounts, accountNumber)
    {
      var found := FindAccount(accountNumber);
      FindFacts(accounts, accountNumber);
      b := found.Some?;
    }

    method GetAccountsByType(t: AccountType) returns (r: seq<AccountRecord>)
      ensures r == OfType(accounts, t)
    {
      r := [];
      var i := 0;
      while i < |accounts|
        invariant 0 <= i <= |accounts|
        invariant r == OfType(accounts[..i], t)
      {
        assert accounts[..i + 1][..i] == accounts[..i];
        if accounts[i].accountType == t {
          r := r + [accounts[i]];
        }
        i := i + 1;
      }
      assert accounts[..i] == accounts;
    }

    method AddAccount(account: Option<AccountRecord>)
      modifies this
      ensures State() == AddAccountSpec(old(State()), account)
    {
      if account.None? {
        return;
      }
      var held := FindAccount(account.value.accountNumber);
      if held.Some? {
        return;
      }
      if account.value.customerId != customerId {
        return;
      }
      accounts := accounts + [account.value];
    }

    method RemoveAccount(accountNumber: string) returns (ok: bool)
      modifies this
      ensures (ok, State()) == RemoveAccountSpec(old(State()), accountNumber)
    {
      if |accountNumber| == 0 {
        return false;
      }
      var held := FindAccount(accountNumber);
      if held.None? {
        return false;
      }
      var kept := [];
      var i := 0;
      while i < |accounts|
        invariant 0 <= i <= |accounts|
        invariant kept == Without(accounts[..i], accountNumber)
      {
        assert accounts[..i + 1][..i] == accounts[..i];
        if accounts[i].accountNumber != accountNumber {
          kept := kept + [accounts[i]];
        }
        i := i + 1;
      }
      assert accounts[..i] == accounts;
      accounts := kept;
      ok := true;
    }

    method VerifyPin(inputPin: string) returns (ok: bool)
      ensures ok == VerifyPinSpec(State(), inputPin)
    {
      if |inputPin| == 0 {
        return false;
      }
      var hashedInputPin := SimpleHash(inputPin);
      ok := hashedInputPin == hashedPin;
    }

    method ChangePin(oldPin: string, newPin: string) returns (ok: bool)
      modifies this
      ensures (ok, State()) == ChangePinSpec(old(State()), oldPin, newPin)
    {
      var verified := VerifyPin(oldPin);
      if !verified {
        return false;
      }
      if |newPin| == 0 || |newPin| < 4 {
        return false;
      }
      hashedPin := SimpleHash(newPin);
      ok := true;
    }

    method UpdateContactInfo(newAddress: string, newPhone: string, newEmail: string)
      modifies this
      ensures State() == UpdateContactSpec(old(State()), newAddress, newPhone, newEmail)
    {
      if |newEmail| > 0 && !IsValidEmail(newEmail) {
        return;
      }
      if |newPhone| > 0 {
        var phoneOk := IsValidPhone(newPhone);
        if !phoneOk {
          return;
        }
      }
      address := newAddress;
      phoneNumber := newPhone;
      email := newEmail;
    }

    method SetActive(status: bool)
      modifies this
      ensures State() == SetCustomerActiveSpec(old(State()), status)
    {
      active := status;
      if !active {
        var i := 0;
        while i < |accounts|
          invariant 0 <= i <= |accounts| == |old(accounts)|
          invariant forall k :: 0 <= k < i ==> accounts[k] == Accounts.SetActiveSpec(old(accounts)[k], false)
          invariant forall k :: i <= k < |accounts| ==> accounts[k] == old(accounts)[k]
          invariant unchanged(`address, `phoneNumber, `email, `hashedPin) && active == status
        {
          accounts := accounts[i := Accounts.SetActiveSpec(accounts[i], false)];
          i := i + 1;
        }
        assert accounts == Deactivated(old(accounts));
      }
    }

    /** The shared accumulator loop of the three balance totals. */
    static method SumBalances(s: seq<AccountRecord>) returns (total: real)
      ensures total == TotalBalance(s)
    {
      total := 0.0;
      var i := 0;
      while i < |s|
        invariant 0 <= i <= |s|
        invariant total == TotalBalance(s[..i])
      {
        assert s[..i + 1][..i] == s[..i];
        total := total + s[i].balance;
        i := i + 1;
      }
      assert s[..i] == s;
    }

    method GetTotalBalance() returns (total: real)
      ensures total == TotalBalance(accounts)
    {
      total := SumBalances(accounts);
    }

    method GetTotalSavingsBalance() returns (total: real)
      ensures total == TotalBalance(OfType(accounts, SAVINGS))
    {
      var savings := GetAccountsByType(SAVINGS);
      total := SumBalances(savings);
    }

    method GetTotalCheckingBalance() returns (total: real)
      ensures total == TotalBalance(OfType(accounts, CHECKING))
    {
      var checking := GetAccountsByType(CHECKING);
      total := SumBalances(checking);
    }

    method GetTotalActiveAccounts() returns (count: nat)
      ensures count == ActiveCount(accounts)
    {
      count := 0;
      var i := 0;
      while i < |accounts|
        invariant 0 <= i <= |accounts|
        invariant count == ActiveCount(accounts[..i])
      {
        assert accounts[..i + 1][..i] == accounts[..i];
        if accounts[i].active {
          count := count + 1;
        }
        i := i + 1;
      }
      assert accounts[..i] == accounts;
    }
  }
}
