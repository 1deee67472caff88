/** Accounts and their access control lists, and the reverse index from keys to the accounts they belong to. */
module Accounts {

  const AK_LIMIT: nat := 1024
  const ACCOUNT_SIZE: nat := 16
  const SEPARATOR: char := '\U{01}'

  datatype Rule = Threshold | KeySets | OtherRule

  datatype Option<T> = None | Some(value: T)

  /** An access control list. A message field that is absent differs from one that is present and empty. */
  datatype Acl = Acl(rule: Option<Rule>, weights: Option<map<string, real>>,
                     sets: Option<Option<map<string, seq<string>>>>)

  // ----- Checks

  /** Exactly one of the two list-based rules, with its list present and not too long. */
  predicate ValidAcl(acl: Acl) {
    && acl.rule.Some?
    && (acl.sets.Some? || acl.weights.Some?)
    && match acl.rule.value
       case Threshold => acl.weights.Some? && |acl.weights.value| <= AK_LIMIT
       case KeySets => acl.sets.Some? && acl.sets.value.Some? && |acl.sets.value.value| <= AK_LIMIT
       case OtherRule => false
  }

  /** Under each rule its own list decides: one of up to 1024 entries, empty or not, is accepted and a longer one is
      not, whatever the other list holds. Without a rule, without the list of the rule, or under any other rule, nothing
      is accepted. */
  lemma {:induction false} AclLimits(acl: Acl)
    ensures acl.rule == Some(Threshold) && acl.weights.Some? ==> (ValidAcl(acl) <==> |acl.weights.value| <= 1024)
    ensures acl.rule == Some(KeySets) && acl.sets.Some? && acl.sets.value.Some? ==>
              (ValidAcl(acl) <==> |acl.sets.value.value| <= 1024)
    ensures acl.rule == Some(Threshold) && acl.weights.None? ==> !ValidAcl(acl)
    ensures acl.rule == Some(KeySets) && (acl.sets.None? || acl.sets.value.None?) ==> !ValidAcl(acl)
    ensures acl.rule.None? || acl.rule == Some(OtherRule) ==> !ValidAcl(acl)
  {
  }

  predicate ValidRawAccount(name: string) {
    |name| == ACCOUNT_SIZE && forall i :: 0 <= i < ACCOUNT_SIZE ==> '0' <= name[i] <= '9'
  }

  /** A raw account name is sixteen decimal digits. */
  lemma {:induction false} RawAccountIff(name: string)
    ensures ValidRawAccount(name) <==> |name| == 16 && forall c :: c in name ==> c in "0123456789"
  {
    assert forall c: char :: '0' <= c <= '9' <==> c in "0123456789";
    if |name| == 16 && forall c :: c in name ==> c in "0123456789" {
      assert forall i :: 0 <= i < 16 ==> name[i] in name;
    }
  }

  function AccountKey(chain: string, name: string): string {
    "XC" + name + "@" + chain
  }

  /** The index key of a pair. */
  function IndexKey(ak: string, account: string): string {
    ak + [SEPARATOR] + account
  }

  /** In an index key, the separator behind the first part is the last one. */
  lemma {:induction false} CleanBehind(ak: string, account: string)
    requires SEPARATOR !in account
    ensures
      var s := IndexKey(ak, account);
      s[|ak|] == SEPARATOR && forall n :: |ak| < n < |s| ==> s[n] != SEPARATOR
  {
    var s := IndexKey(ak, account);
    forall n | |ak| < n < |s| ensures s[n] != SEPARATOR {
      assert s[n] == account[n - |ak| - 1];
    }
  }

  /** Index keys of different pairs differ, as long as no account name contains the separator. */
  lemma {:induction false} IndexKeyInjective(ak: string, account: string, ak': string, account': string)
    requires SEPARATOR !in account && SEPARATOR !in account' && IndexKey(ak, account) == IndexKey(ak', account')
    ensures ak == ak' && account == account'
  {
    var s := IndexKey(ak, account);
    CleanBehind(ak, account);
    CleanBehind(ak', account');
    assert ak == s[..|ak|] && ak' == s[..|ak'|] && account == s[|ak| + 1..] && account' == s[|ak'| + 1..];
  }

  lemma {:induction false} AccountKeyClean(chain: string, name: string)
    requires ValidRawAccount(name) && SEPARATOR !in chain
    ensures SEPARATOR !in AccountKey(chain, name)
  {
  }

  /** Different names, or names on different chains, have different account keys. */
  lemma {:induction false} AccountKeyInjective(chain: string, name: string, other: string, named: string)
    requires ValidRawAccount(name) && ValidRawAccount(named) && AccountKey(chain, name) == AccountKey(other, named)
    ensures chain == other && name == named
  {
    var s := AccountKey(chain, name);
    assert name == s[2..18] && named == s[2..18] && chain == s[19..] && other == s[19..];
  }

  // ----- Members

  /** The keys that count under the rule of the list. */
  ghost function Members(acl: Acl): set<string> {
    if !ValidAcl(acl) then {} else
    match acl.rule.value
    case Threshold => acl.weights.value.Keys
    case KeySets => SetMembers(acl.sets.value.value, acl.sets.value.value.Keys)
    case OtherRule => {}
  }

  /** The keys in the named sets. */
  ghost function SetMembers(sets: map<string, seq<string>>, names: set<string>): set<string> {
    set name, i | name in names && name in sets && 0 <= i < |sets[name]| :: sets[name][i]
  }

  ghost function Elements(aks: seq<string>): set<string> {
    set ak | ak in aks
  }

  /** The members of an accepted list: the weighted keys, or those in any of the sets. */
  lemma {:induction false} MembersIff(acl: Acl, ak: string)
    requires ValidAcl(acl)
    ensures ak in Members(acl) <==>
              if acl.rule == Some(Threshold) then ak in acl.weights.value
              else exists name :: name in acl.sets.value.value && ak in acl.sets.value.value[name]
  {
    if acl.rule == Some(KeySets) {
      var sets := acl.sets.value.value;
      if name :| name in sets && ak in sets[name] {
        var i :| 0 <= i < |sets[name]| && sets[name][i] == ak;
      }
    }
  }

  lemma {:induction false} SetMembersMore(sets: map<string, seq<string>>, names: set<string>, name: string)
    requires name in sets
    ensures SetMembers(sets, names + {name}) == SetMembers(sets, names) + Elements(sets[name])
  {
    var all := SetMembers(sets, names + {name});
    forall ak | ak in Elements(sets[name]) ensures ak in all {
      var i :| 0 <= i < |sets[name]| && sets[name][i] == ak;
    }
  }

  ghost function Keys(aks: set<string>, account: string): set<string> {
    set ak | ak in aks :: IndexKey(ak, account)
  }

  class Registry {
    const chain: string
    var accounts: map<string, Acl>
    var index: set<string>

    constructor (chain: string)
      requires SEPARATOR !in chain
      ensures Reflects() && accounts == map[] && index == {} && this.chain == chain
    {
      this.chain, accounts, index := chain, map[], {};
    }

    /** The index holds a pair exactly when the key is a member of the account's stored list. */
    ghost predicate Reflects()
      reads this
    {
      && SEPARATOR !in chain
      && (forall a :: a in accounts ==> ValidAcl(accounts[a]) && SEPARATOR !in a)
      && (forall a, ak :: SEPARATOR !in a ==>
          (IndexKey(ak, a) in index <==> a in accounts && ak in Members(accounts[a])))
    }

    // ----- The four loops over the members of a list

    method DeleteWeighted(weights: map<string, real>, account: string)
      modifies this`index
      ensures index == old(index) - Keys(weights.Keys, account)
    {
      var left := weights.Keys;
      while left != {}
        invariant left <= weights.Keys && index == old(index) - Keys(weights.Keys - left, account)
      {
        var ak :| ak in left;
        index, left := index - {IndexKey(ak, account)}, left - {ak};
      }
    }

    method PutWeighted(weights: map<string, real>, account: string)
      modifies this`index
      ensures index == old(index) + Keys(weights.Keys, account)
    {
      var left := weights.Keys;
      while left != {}
        invariant left <= weights.Keys && index == old(index) + Keys(weights.Keys - left, account)
      {
        var ak :| ak in left;
        index, left := index + {IndexKey(ak, account)}, left - {ak};
      }
    }

    method DeleteSets(sets: map<string, seq<string>>, account: string)
      modifies this`index
      ensures index == old(index) - Keys(SetMembers(sets, sets.Keys), account)
    {
      var left := sets.Keys;
      while left != {}
        invariant left <= sets.Keys && index == old(index) - Keys(SetMembers(sets, sets.Keys - left), account)
      {
        var name :| name in left;
        ghost var before := index;
        for i := 0 to |sets[name]|
          invariant index == before - Keys(Elements(sets[name][..i]), account)
        {
          index := index - {IndexKey(sets[name][i], account)};
        }
        assert sets[name][..|sets[name]|] == sets[name];
        SetMembersMore(sets, sets.Keys - left, name);
        left := left - {name};
        assert sets.Keys - left == (sets.Keys - left - {name}) + {name};
      }
    }

    method PutSets(sets: map<string, seq<string>>, account: string)
      modifies this`index
      ensures index == old(index) + Keys(SetMembers(sets, sets.Keys), account)
    {
      var left := sets.Keys;
      while left != {}
        invariant left <= sets.Keys && index == old(index) + Keys(SetMembers(sets, sets.Keys - left), account)
      {
        var name :| name in left;
        ghost var before := index;
        for i := 0 to |sets[name]|
          invariant index == before + Keys(Elements(sets[name][..i]), account)
        {
          index := index + {IndexKey(sets[name][i], account)};
        }
        assert sets[name][..|sets[name]|] == sets[name];
        SetMembersMore(sets, sets.Keys - left, name);
        left := left - {name};
        assert sets.Keys - left == (sets.Keys - left - {name}) + {name};
      }
    }

    /** Take the members of a valid list out of the index, or put them in. */
    method Update(acl: Option<Acl>, account: string, put: bool) returns (ok: bool)
      modifies this`index
      ensures acl.None? ==> ok && index == old(index)
      ensures acl.Some? && ValidAcl(acl.value) ==>
                ok && index == if put then old(index) + Keys(Members(acl.value), account)
                               else old(index) - Keys(Members(acl.value), account)
      ensures !ok ==> index == old(index)
    {
      if acl.None? { return true; }
      var list := acl.value;
      if list.rule == Some(Threshold) {
        var weights := if list.weights.Some? then list.weights.value else map[];
        if put { PutWeighted(weights, account); } else { DeleteWeighted(weights, account); }
        return true;
      }
      if list.rule == Some(KeySets) {
        var sets := if list.sets.Some? && list.sets.value.Some? then list.sets.value.value else map[];
        if put { PutSets(sets, account); } else { DeleteSets(sets, account); }
        return true;
      }
      return false;
    }

    /** The members of the new list replace those of the old one. */
    method UpdateAK2AccountReflection(before: Option<Acl>, after: Acl, account: string) returns (ok: bool)
      requires ValidAcl(after) && (before.Some? ==> ValidAcl(before.value))
      modifies this`index
      ensures ok
      ensures index == old(index) - (if before.Some? then Keys(Members(before.value), account) else {})
              + Keys(Members(after), account)
    {
      ok := Update(before, account, false);
      ok := Update(Some(after), account, true);
    }

    method NewAccount(enoughGas: bool, name: Option<string>, acl: Option<Acl>) returns (ok: bool)
      requires Reflects()
      modifies this
      ensures Reflects()
      ensures ok <==>
                && enoughGas && acl.Some? && name.Some? && ValidRawAccount(name.value) && chain != ""
                && ValidAcl(acl.value)
                && AccountKey(chain, name.value) !in old(accounts)
      ensures accounts == if ok then old(accounts)[AccountKey(chain, name.value) := acl.value] else old(accounts)
    {
      if !enoughGas || acl.None? || name.None? || !ValidRawAccount(name.value) || chain == "" { return false; }
      var account := AccountKey(chain, name.value);
      if !ValidAcl(acl.value) || account in accounts { return false; }
      AccountKeyClean(chain, name.value);
      ghost var was := index;
      accounts := accounts[account := acl.value];
      ok := UpdateAK2AccountReflection(None, acl.value, account);
      Reindexed(old(accounts), was, account, None, acl.value, index);
    }

    method SetAccountACL(enoughGas: bool, account: string, acl: Option<Acl>) returns (ok: bool)
      requires Reflects()
      modifies this
      ensures Reflects()
      ensures ok <==> enoughGas && acl.Some? && ValidAcl(acl.value) && account in old(accounts)
      ensures accounts == if ok then old(accounts)[account := acl.value] else old(accounts)
    {
      if !enoughGas || acl.None? || !ValidAcl(acl.value) || account !in accounts { return false; }
      var before := accounts[account];
      ghost var was := index;
      ok := UpdateAK2AccountReflection(Some(before), acl.value, account);
      Reindexed(accounts, was, account, Some(before), acl.value, index);
      accounts := accounts[account := acl.value];
    }
  }

  /** Replacing the pairs of one account leaves those of the others, and makes its own those of the new list. */
  lemma {:induction false} Reindexed(accounts: map<string, Acl>, was: set<string>, account: string,
        before: Option<Acl>, acl: Acl, now: set<string>)
    requires SEPARATOR !in account
    requires before == if account in accounts then Some(accounts[account]) else None
    requires forall a, ak :: SEPARATOR !in a ==>
            (IndexKey(ak, a) in was <==> a in accounts && ak in Members(accounts[a]))
    requires now ==
            was - (if before.Some? then Keys(Members(before.value), account) else {}) + Keys(Members(acl), account)
    ensures forall a, ak :: SEPARATOR !in a ==>
              (IndexKey(ak, a) in now <==> a in accounts[account := acl] && ak in Members(accounts[account := acl][a]))
  {
    forall a, ak | SEPARATOR !in a
      ensures IndexKey(ak, a) in now <==> a in accounts[account := acl] && ak in Members(accounts[account := acl][a])
    {
      InKeysIff(Members(acl), account, ak, a);
      if before.Some? {
        InKeysIff(Members(before.value), account, ak, a);
      }
    }
  }

  lemma {:induction false} InKeysIff(aks: set<string>, account: string, ak: string, a: string)
    requires SEPARATOR !in account && SEPARATOR !in a
    ensures IndexKey(ak, a) in Keys(aks, account) <==> a == account && ak in aks
  {
    if IndexKey(ak, a) in Keys(aks, account) {
      var x :| x in aks && IndexKey(x, account) == IndexKey(ak, a);
      IndexKeyInjective(x, account, ak, a);
    }
  }
}
