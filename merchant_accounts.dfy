// The maintenance script that gives every store an account of its own:
// stores already owned by a real user get that user's profile and
// membership put right; stores still owned by the shared placeholder
// account get a new user, named after the store.
module MerchantAccounts {
  import opened Wrappers
  import Lists
  import opened Text
  import opened MenuModel
  import opened OrderEngine
  import opened Accounts

  /** The placeholder owner the seed data shares between stores. */
  const SharedAccount: string := "merchant_default"
  const DefaultPassword: string := "Merchant123"
  const MailDomain: string := "@fastfood.local"
  /** How many characters of the cleaned store name a username keeps. */
  const BaseLength: nat := 15

  // ---------------------------------------------------------------------
  // Usernames from store names
  // ---------------------------------------------------------------------

  /** The accented vowels and đ the script replaces, with their plain letters. */
  const VietnameseMap: seq<(char, char)> := [
    ('à', 'a'), ('á', 'a'), ('ạ', 'a'), ('ả', 'a'), ('ã', 'a'),
    ('è', 'e'), ('é', 'e'), ('ẹ', 'e'), ('ẻ', 'e'), ('ẽ', 'e'),
    ('ì', 'i'), ('í', 'i'), ('ị', 'i'), ('ỉ', 'i'), ('ĩ', 'i'),
    ('ò', 'o'), ('ó', 'o'), ('ọ', 'o'), ('ỏ', 'o'), ('õ', 'o'),
    ('ù', 'u'), ('ú', 'u'), ('ụ', 'u'), ('ủ', 'u'), ('ũ', 'u'),
    ('ỳ', 'y'), ('ý', 'y'), ('ỵ', 'y'), ('ỷ', 'y'), ('ỹ', 'y'),
    ('đ', 'd')]

  /** `s.replace(from, to)` for a one-character `from`. */
  function Replaced(s: string, from: char, to: char): (r: string)
    ensures |r| == |s|
    ensures forall i :: 0 <= i < |s| ==> r[i] == (if s[i] == from then to else s[i])
  {
    seq(|s|, i requires 0 <= i < |s| => if s[i] == from then to else s[i])
  }

  /** What the replacements `pairs`, applied in order, make of one character. */
  function ApplyPairs(pairs: seq<(char, char)>, c: char): char
    decreases |pairs|
  {
    if |pairs| == 0 then c
    else
      var d := ApplyPairs(pairs[..|pairs| - 1], c);
      if d == pairs[|pairs| - 1].0 then pairs[|pairs| - 1].1 else d
  }

  /** Replacements from non-ASCII letters to ASCII ones. */
  predicate ToAscii(pairs: seq<(char, char)>)
  {
    forall i :: 0 <= i < |pairs| ==> pairs[i].1 as int < 128 && pairs[i].0 as int >= 128
  }

  /** After the replacements no replaced letter is left, and a character
    * none of them names comes through unchanged. */
  lemma {:induction false} ApplyPairsFacts(pairs: seq<(char, char)>, c: char)
    requires ToAscii(pairs)
    ensures forall i :: 0 <= i < |pairs| ==> ApplyPairs(pairs, c) != pairs[i].0
    ensures (forall i :: 0 <= i < |pairs| ==> c != pairs[i].0) ==> ApplyPairs(pairs, c) == c
    decreases |pairs|
  {
    if |pairs| > 0 {
      var init := pairs[..|pairs| - 1];
      assert ToAscii(init) by {
        forall i | 0 <= i < |init| ensures init[i].1 as int < 128 && init[i].0 as int >= 128 {
          assert init[i] == pairs[i];
        }
      }
      ApplyPairsFacts(init, c);
      forall i | 0 <= i < |pairs| ensures ApplyPairs(pairs, c) != pairs[i].0 {
        if i < |init| {
          assert init[i] == pairs[i];
        }
      }
      if forall i :: 0 <= i < |pairs| ==> c != pairs[i].0 {
        forall i | 0 <= i < |init| ensures c != init[i].0 {
          assert init[i] == pairs[i];
        }
      }
    }
  }

  /** The Vietnamese replacements, character by character. */
  function Unaccent(s: string): (r: string)
    ensures |r| == |s|
    ensures forall i :: 0 <= i < |s| ==> r[i] == ApplyPairs(VietnameseMap, s[i])
  {
    seq(|s|, i requires 0 <= i < |s| => ApplyPairs(VietnameseMap, s[i]))
  }

  /** Python `str.isalnum` on one character, for ASCII, Latin-1, the Latin
    * Extended-A and -B blocks and the Vietnamese block U+1EA0-U+1EF9. */
  predicate IsAlnum(c: char)
  {
    || ('0' <= c <= '9') || ('a' <= c <= 'z') || ('A' <= c <= 'Z')
    || c == 'ª' || c == '²' || c == '³' || c == 'µ' || c == '¹' || c == 'º' || c == '¼' || c == '½' || c == '¾'
    || ('À' <= c <= 'ÿ' && c != '×' && c != '÷')
    || ('Ā' <= c <= 'ɏ')
    || ('Ạ' <= c <= 'ỹ')
  }

  /** `''.join(c for c in s if c.isalnum())`. */
  function KeepAlnum(s: string): (r: string)
    ensures |r| <= |s|
    ensures forall c :: c in r ==> c in s && IsAlnum(c)
    decreases |s|
  {
    if |s| == 0 then [] else (if IsAlnum(s[0]) then [s[0]] else []) + KeepAlnum(s[1..])
  }

  /** The name part of a generated username: the store name lower-cased,
    * unaccented, reduced to letters and digits and cut to 15 characters,
    * or `merchant<id>` when nothing is left. */
  function BaseName(name: string, id: nat): string
  {
    var kept := KeepAlnum(Unaccent(Lower(name)));
    var cut := if |kept| <= BaseLength then kept else kept[..BaseLength];
    if cut == "" then "merchant" + NatToString(id) else cut
  }

  /** None of the letters the script replaces. */
  predicate Unaccented(c: char)
  {
    forall i :: 0 <= i < |VietnameseMap| ==> c != VietnameseMap[i].0
  }

  lemma VietnameseMapToAscii()
    ensures ToAscii(VietnameseMap)
  {
  }

  lemma UnaccentChars(s: string)
    ensures forall c :: c in Unaccent(s) ==> Unaccented(c)
  {
    VietnameseMapToAscii();
    forall c | c in Unaccent(s) ensures Unaccented(c) {
      var k :| 0 <= k < |s| && Unaccent(s)[k] == c;
      ApplyPairsFacts(VietnameseMap, s[k]);
    }
  }

  lemma FallbackChars(id: nat)
    ensures forall c :: c in "merchant" + NatToString(id) ==> IsAlnum(c) && Unaccented(c)
  {
    VietnameseMapToAscii();
    var r := "merchant" + NatToString(id);
    forall c | c in r ensures IsAlnum(c) && c as int < 128 {
      var k :| 0 <= k < |r| && r[k] == c;
      if k >= |"merchant"| {
        assert c == NatToString(id)[k - |"merchant"|];
      }
    }
  }

  /** A base name is never empty, is made of letters and digits only, holds
    * none of the replaced accented letters, and is at most 15 characters
    * long unless it is the `merchant<id>` fall-back. */
  lemma BaseNameFacts(name: string, id: nat)
    ensures BaseName(name, id) != ""
    ensures forall c :: c in BaseName(name, id) ==> IsAlnum(c) && Unaccented(c)
    ensures |BaseName(name, id)| <= BaseLength || BaseName(name, id) == "merchant" + NatToString(id)
  {
    var u := Unaccent(Lower(name));
    var kept := KeepAlnum(u);
    var cut := if |kept| <= BaseLength then kept else kept[..BaseLength];
    if cut == "" {
      FallbackChars(id);
    } else {
      UnaccentChars(Lower(name));
      assert forall c :: c in cut ==> c in kept;
    }
  }

  /** The base name, computed as the script does: lower-case, one
    * replacement pass per listed letter, then the filter and the cut. */
  method ComputeBaseName(name: string, id: nat) returns (base: string)
    ensures base == BaseName(name, id)
  {
    base := Lower(name);
    ghost var lowered := base;
    var i := 0;
    while i < |VietnameseMap|
      invariant 0 <= i <= |VietnameseMap|
      invariant |base| == |lowered|
      invariant forall k :: 0 <= k < |base| ==> base[k] == ApplyPairs(VietnameseMap[..i], lowered[k])
    {
      base := Replaced(base, VietnameseMap[i].0, VietnameseMap[i].1);
      assert VietnameseMap[..i + 1][..i] == VietnameseMap[..i];
      i := i + 1;
    }
    assert VietnameseMap[..i] == VietnameseMap;
    assert base == Unaccent(lowered);
    var kept := KeepAlnum(base);
    base := if |kept| <= BaseLength then kept else kept[..BaseLength];
    if base == "" {
      base := "merchant" + NatToString(id);
    }
  }

  /** `merchant_{id}_{base}`. */
  function AccountName(id: nat, name: string): string
  {
    "merchant_" + NatToString(id) + "_" + BaseName(name, id)
  }

  /** Two stores never derive the same username: the id sits between the
    * prefix and the first underscore after it. */
  lemma AccountNameDeterminesId(a: nat, b: nat, nameA: string, nameB: string)
    requires AccountName(a, nameA) == AccountName(b, nameB)
    ensures a == b
  {
    DigitsBeforeUnderscore("merchant_", NatToString(a), NatToString(b), BaseName(nameA, a), BaseName(nameB, b));
    NatToStringInjective(a, b);
  }

  /** A run of digits after a fixed prefix and before `_` is read back
    * unambiguously. */
  lemma DigitsBeforeUnderscore(p: string, da: string, db: string, ra: string, rb: string)
    requires forall i :: 0 <= i < |da| ==> IsDigit(da[i])
    requires forall i :: 0 <= i < |db| ==> IsDigit(db[i])
    requires p + da + "_" + ra == p + db + "_" + rb
    ensures da == db
  {
    var ta, tb := da + "_" + ra, db + "_" + rb;
    assert ta == (p + da + "_" + ra)[|p|..];
    assert tb == (p + db + "_" + rb)[|p|..];
    assert ta == da + ("_" + ra) && tb == db + ("_" + rb);
    LeadingDigitsOfRun(da, "_" + ra);
    LeadingDigitsOfRun(db, "_" + rb);
    assert da == ta[..|da|];
    assert db == tb[..|db|];
  }

  // ---------------------------------------------------------------------
  // The collision loop
  // ---------------------------------------------------------------------

  /** The k-th username the loop tries: the original, then the original
    * with 1, 2, 3... appended. */
  function Candidate(original: string, k: nat): string
  {
    if k == 0 then original else original + NatToString(k)
  }

  lemma CandidateInjective(original: string, j: nat, k: nat)
    requires Candidate(original, j) == Candidate(original, k)
    ensures j == k
  {
    if j != 0 && k != 0 {
      var cj, ck := Candidate(original, j), Candidate(original, k);
      assert NatToString(j) == cj[|original|..];
      assert NatToString(k) == ck[|original|..];
      NatToStringInjective(j, k);
    }
  }

  /** The first `k` candidates are `k` distinct names, so at most `|names|`
    * of them can be taken. */
  lemma {:induction false} CandidatesBound(names: set<string>, original: string, k: nat)
    requires forall j :: 0 <= j < k ==> Candidate(original, j) in names
    ensures k <= |names|
  {
    var tried := TriedNames(original, k);
    assert tried <= names;
    SubsetCard(tried, names);
  }

  /** The set of the first `k` candidates, which has `k` elements. */
  function TriedNames(original: string, k: nat): (r: set<string>)
    ensures forall s :: s in r <==> exists j :: 0 <= j < k && s == Candidate(original, j)
    ensures |r| == k
    decreases k
  {
    if k == 0 then {}
    else
      var prev := TriedNames(original, k - 1);
      assert Candidate(original, k - 1) !in prev by {
        if Candidate(original, k - 1) in prev {
          var j :| 0 <= j < k - 1 && Candidate(original, k - 1) == Candidate(original, j);
          CandidateInjective(original, j, k - 1);
        }
      }
      prev + {Candidate(original, k - 1)}
  }

  lemma SubsetCard<T>(a: set<T>, b: set<T>)
    requires a <= b
    ensures |a| <= |b|
  {
    assert b == a + (b - a);
  }

  /** The index of the first candidate not among `names`, searching from `k`. */
  function FirstFree(names: set<string>, original: string, k: nat): (r: nat)
    requires forall j :: 0 <= j < k ==> Candidate(original, j) in names
    ensures k <= r && Candidate(original, r) !in names
    ensures forall j :: 0 <= j < r ==> Candidate(original, j) in names
    decreases |names| - k
  {
    if Candidate(original, k) !in names then k
    else
      CandidatesBound(names, original, k + 1);
      FirstFree(names, original, k + 1)
  }

  /** The loop's result is the first free candidate: any index whose
    * candidate is free while all before it are taken is that one. */
  lemma FirstFreeUnique(names: set<string>, original: string, r: nat)
    requires Candidate(original, r) !in names
    requires forall j :: 0 <= j < r ==> Candidate(original, j) in names
    ensures r == FirstFree(names, original, 0)
  {
    var f := FirstFree(names, original, 0);
    assert Candidate(original, r) !in names && Candidate(original, f) !in names;
  }

  function Usernames(users: map<int, User>): set<string>
  {
    set u | u in users :: users[u].username
  }

  /** The `while User.objects.filter(username=username).exists()` loop. */
  method FreeUsername(users: map<int, User>, original: string) returns (username: string)
    ensures username == Candidate(original, FirstFree(Usernames(users), original, 0))
    ensures username !in Usernames(users)
  {
    ghost var names := Usernames(users);
    username := original;
    var counter: nat := 1;
    while exists u :: u in users && users[u].username == username
      invariant username == Candidate(original, counter - 1)
      invariant forall j :: 0 <= j < counter - 1 ==> Candidate(original, j) in names
      decreases |names| - counter + 1
    {
      assert username in names;
      CandidatesBound(names, original, counter);
      username := original + NatToString(counter);
      counter := counter + 1;
    }
    assert username !in names;
    FirstFreeUnique(names, original, counter - 1);
  }

  // ---------------------------------------------------------------------
  // One store, then all of them
  // ---------------------------------------------------------------------

  /** The tables the script reads and writes. */
  datatype Tables = Tables(users: map<int, User>, profiles: map<int, Profile>, nextUserId: int,
                           merchants: map<int, Merchant>, members: Members)

  /** Every store's owner is a user (the foreign key). */
  ghost predicate OwnersKnown(t: Tables)
  {
    forall m :: m in t.merchants ==> t.merchants[m].owner in t.users
  }

  ghost predicate Sound(t: Tables)
  {
    UsersConsistent(t.users, t.profiles, t.nextUserId) && OwnersKnown(t)
  }

  /** The profile of a store's real owner after the script: created as a
    * merchant's when missing, switched to merchant (with the store's name
    * and address) when it is another role's, else left alone. */
  function OwnerProfile(before: Option<Profile>, m: Merchant): (p: Profile)
    ensures IsMerchant(p)
    ensures before.Some? && IsMerchant(before.value) ==> p == before.value
    ensures !(before.Some? && IsMerchant(before.value)) ==> p.storeName == Some(m.name) && p.storeAddress == Some(m.address)
  {
    if before.None? then Profile("merchant", Some(m.name), Some(m.address), None)
    else if before.value.role != "merchant" then before.value.(role := "merchant", storeName := Some(m.name), storeAddress := Some(m.address))
    else before.value
  }

  /** What the script does for the store `id`, with how many accounts it
    * created (0 or 1) and how many profiles it updated (0 or 1). */
  function FixStore(t: Tables, id: nat): (r: (Tables, nat, nat))
    requires id in t.merchants && Sound(t)
    ensures Sound(r.0) && r.0.merchants.Keys == t.merchants.Keys
    ensures r.1 + r.2 <= 1
  {
    var m := t.merchants[id];
    var owner := m.owner;
    if t.users[owner].username != SharedAccount then
      var before := if owner in t.profiles then Some(t.profiles[owner]) else None;
      var updated := if before.Some? && IsMerchant(before.value) then 0 else 1;
      var members := if (id, owner) in t.members then t.members else t.members[(id, owner) := "owner"];
      (t.(profiles := t.profiles[owner := OwnerProfile(before, m)], members := members), 0, updated)
    else
      var username := Candidate(AccountName(id, m.name), FirstFree(Usernames(t.users), AccountName(id, m.name), 0));
      var u := t.nextUserId;
      var users := t.users[u := User(username, username + MailDomain, DefaultPassword, true)];
      assert forall a :: a in t.users ==> t.users[a].username in Usernames(t.users);
      (Tables(users,
              t.profiles[u := Profile("merchant", Some(m.name), Some(m.address), Some(m.phone))],
              u + 1,
              t.merchants[id := m.(owner := u)],
              t.members[(id, u) := "owner"]), 1, 0)
  }

  /** The whole loop over the stores in `queue`, with the two counters. */
  function FixAll(t: Tables, queue: seq<nat>): (r: (Tables, nat, nat))
    requires Sound(t) && forall k :: 0 <= k < |queue| ==> queue[k] in t.merchants
    ensures Sound(r.0) && r.0.merchants.Keys == t.merchants.Keys
    ensures r.1 + r.2 <= |queue|
    decreases |queue|
  {
    if |queue| == 0 then (t, 0, 0)
    else
      var prev := FixAll(t, queue[..|queue| - 1]);
      var step := FixStore(prev.0, queue[|queue| - 1]);
      (step.0, prev.1 + step.1, prev.2 + step.2)
  }

  /** A store with a real owner keeps it, and that owner ends as a
    * merchant who is a member of the store; no account is created. */
  lemma RealOwnerKept(t: Tables, id: nat)
    requires id in t.merchants && Sound(t)
    requires t.users[t.merchants[id].owner].username != SharedAccount
    ensures var r := FixStore(t, id);
      var owner := t.merchants[id].owner;
      && r.0.merchants == t.merchants && r.0.users == t.users && r.1 == 0
      && owner in r.0.profiles && IsMerchant(r.0.profiles[owner])
      && (id, owner) in r.0.members
      && (forall k :: k in t.members ==> k in r.0.members && r.0.members[k] == t.members[k])
  {
  }

  /** A store of the shared account gets a new user: named after the store
    * (with a number appended on a clash), unused before, mailed at the
    * script's domain, a merchant, the store's owner and its "owner"
    * member. */
  lemma SharedOwnerReplaced(t: Tables, id: nat)
    requires id in t.merchants && Sound(t)
    requires t.users[t.merchants[id].owner].username == SharedAccount
    ensures var r := FixStore(t, id);
      var u := t.nextUserId;
      var name := r.0.users[u].username;
      && r.1 == 1 && r.2 == 0
      && u !in t.users && r.0.users.Keys == t.users.Keys + {u}
      && r.0.merchants[id].owner == u
      && name !in Usernames(t.users)
      && (exists k :: name == Candidate(AccountName(id, t.merchants[id].name), k))
      && r.0.users[u].email == name + MailDomain
      && r.0.profiles[u].role == "merchant"
      && r.0.members[(id, u)] == "owner"
  {
    var m := t.merchants[id];
    var k := FirstFree(Usernames(t.users), AccountName(id, m.name), 0);
    assert FixStore(t, id).0.users[t.nextUserId].username == Candidate(AccountName(id, m.name), k);
  }

  /** Running the script twice creates no account the second time when no
    * store of the first run was left with the shared account. */
  lemma SecondRunCreatesNothing(t: Tables, id: nat)
    requires id in t.merchants && Sound(t)
    ensures var once := FixStore(t, id);
      FixStore(once.0, id).1 == 0 && FixStore(once.0, id).2 == 0 && FixStore(once.0, id).0 == once.0
  {
    var once := FixStore(t, id);
    var owner := t.merchants[id].owner;
    if t.users[owner].username == SharedAccount {
      SharedOwnerReplaced(t, id);
      var u := t.nextUserId;
      var k :| once.0.users[u].username == Candidate(AccountName(id, t.merchants[id].name), k);
      AccountNamePrefix(id, t.merchants[id].name, k);
    } else {
      RealOwnerKept(t, id);
    }
    FixedStoreKept(once.0, id);
  }

  /** A store whose owner is a real account, already a merchant and the
    * store's member, is left as it is and counted nowhere. */
  lemma FixedStoreKept(t: Tables, id: nat)
    requires id in t.merchants && Sound(t)
    requires var owner := t.merchants[id].owner;
      && t.users[owner].username != SharedAccount
      && owner in t.profiles && IsMerchant(t.profiles[owner])
      && (id, owner) in t.members
    ensures FixStore(t, id) == (t, 0, 0)
  {
    var owner := t.merchants[id].owner;
    assert t.profiles[owner := t.profiles[owner]] == t.profiles;
  }

  /** A store the script has dealt with: its owner is a real account with
    * a merchant profile, and is a member of the store. */
  ghost predicate Settled(t: Tables, id: int)
  {
    && id in t.merchants
    && t.merchants[id].owner in t.users
    && t.users[t.merchants[id].owner].username != SharedAccount
    && t.merchants[id].owner in t.profiles && IsMerchant(t.profiles[t.merchants[id].owner])
    && (id, t.merchants[id].owner) in t.members
  }

  /** After its turn a store is settled. */
  lemma FixStoreSettles(t: Tables, id: nat)
    requires id in t.merchants && Sound(t)
    ensures Settled(FixStore(t, id).0, id)
  {
    if t.users[t.merchants[id].owner].username == SharedAccount {
      SharedOwnerReplaced(t, id);
      var u := t.nextUserId;
      var k :| FixStore(t, id).0.users[u].username == Candidate(AccountName(id, t.merchants[id].name), k);
      AccountNamePrefix(id, t.merchants[id].name, k);
    } else {
      RealOwnerKept(t, id);
    }
  }

  /** Another store's turn leaves a settled store settled: its owner keeps
    * the account, a merchant profile stays a merchant's, and memberships
    * are only added. */
  lemma FixStoreKeepsSettled(t: Tables, id: nat, other: int)
    requires id in t.merchants && Sound(t) && Settled(t, other)
    ensures Settled(FixStore(t, id).0, other)
  {
    if t.users[t.merchants[id].owner].username == SharedAccount {
      assert other != id;
      assert t.nextUserId !in t.users;
    }
  }

  /** After the loop every store of `queue` is settled. */
  lemma {:induction false} FixAllSettles(t: Tables, queue: seq<nat>)
    requires Sound(t) && forall k :: 0 <= k < |queue| ==> queue[k] in t.merchants
    ensures forall id :: id in queue ==> Settled(FixAll(t, queue).0, id)
    decreases |queue|
  {
    if |queue| > 0 {
      var init, last := queue[..|queue| - 1], queue[|queue| - 1];
      FixAllSettles(t, init);
      var prev := FixAll(t, init);
      var after := FixStore(prev.0, last).0;
      assert FixAll(t, queue).0 == after;
      FixStoreSettles(prev.0, last);
      forall id | id in queue ensures Settled(after, id) {
        if id != last {
          Lists.InInit(queue, id);
          FixStoreKeepsSettled(prev.0, last, id);
        }
      }
    }
  }

  /** A loop over settled stores changes nothing and counts nothing. */
  lemma {:induction false} SettledRunIsIdle(t: Tables, queue: seq<nat>)
    requires Sound(t) && forall k :: 0 <= k < |queue| ==> Settled(t, queue[k])
    ensures forall k :: 0 <= k < |queue| ==> queue[k] in t.merchants
    ensures FixAll(t, queue) == (t, 0, 0)
    decreases |queue|
  {
    if |queue| > 0 {
      SettledRunIsIdle(t, queue[..|queue| - 1]);
      FixedStoreKept(t, queue[|queue| - 1]);
    }
  }

  /** What the script's query hands the loop: every store once. */
  ghost predicate EachStoreOnce(t: Tables, queue: seq<nat>)
  {
    && (forall id: int :: id in queue <==> id in t.merchants)
    && (forall i, j :: 0 <= i < j < |queue| ==> queue[i] != queue[j])
  }

  /** The query's rows are as many as the stores. */
  lemma StoreQueueLength(t: Tables, queue: seq<nat>)
    requires EachStoreOnce(t, queue)
    ensures forall k :: 0 <= k < |queue| ==> queue[k] in t.merchants
    ensures |queue| == |t.merchants|
  {
    forall k | 0 <= k < |queue| ensures queue[k] in t.merchants {
      assert queue[k] in queue;
    }
    var q: seq<int> := queue;
    var ids := set x | x in q;
    Lists.DistinctCard(q);
    assert ids == t.merchants.Keys by {
      forall x: int ensures x in ids <==> x in t.merchants.Keys {
      }
    }
    assert |t.merchants.Keys| == |t.merchants|;
  }

  /** Over the whole table, given the query's rows: every store ends
    * settled, at most one account or profile is changed per store, and a
    * second run changes nothing. */
  lemma FixAllTable(t: Tables, queue: seq<nat>)
    requires Sound(t) && EachStoreOnce(t, queue)
    ensures forall k :: 0 <= k < |queue| ==> queue[k] in t.merchants
    ensures forall id :: id in t.merchants ==> Settled(FixAll(t, queue).0, id)
    ensures FixAll(t, queue).1 + FixAll(t, queue).2 <= |t.merchants|
    ensures FixAll(FixAll(t, queue).0, queue) == (FixAll(t, queue).0, 0, 0)
  {
    StoreQueueLength(t, queue);
    var r := FixAll(t, queue);
    FixAllSettles(t, queue);
    forall id | id in t.merchants ensures Settled(r.0, id) {
      assert id in queue;
    }
    forall k | 0 <= k < |queue| ensures Settled(r.0, queue[k]) {
      assert queue[k] in queue;
    }
    SettledRunIsIdle(r.0, queue);
  }

  /** A generated username starts with `merchant_<id>_`, so it is never the
    * shared account's name. */
  lemma AccountNamePrefix(id: nat, name: string, k: nat)
    ensures Candidate(AccountName(id, name), k) != SharedAccount
  {
    var c := Candidate(AccountName(id, name), k);
    var d := NatToString(id);
    assert c[9] == d[0] && IsDigit(c[9]);
    assert SharedAccount[9] == 'd';
  }

  function TablesOf(store: AccountStore, mk: Marketplace): Tables
    reads store, mk
  {
    Tables(store.users, store.profiles, store.nextUserId, mk.merchants, mk.members)
  }

  /** One store. */
  method FixMerchant(store: AccountStore, mk: Marketplace, id: nat) returns (created: nat, updated: nat)
    requires id in mk.merchants && Sound(TablesOf(store, mk))
    modifies store, mk
    ensures var r := FixStore(old(TablesOf(store, mk)), id);
      TablesOf(store, mk) == r.0 && created == r.1 && updated == r.2
    ensures store.otps == old(store.otps) && mk.items == old(mk.items) && mk.orders == old(mk.orders)
    ensures mk.nextOrderId == old(mk.nextOrderId) && mk.nextLineId == old(mk.nextLineId)
  {
    var m := mk.merchants[id];
    var owner := m.owner;
    created, updated := 0, 0;
    if store.users[owner].username != SharedAccount {
      if owner !in store.profiles {
        store.profiles := store.profiles[owner := Profile("merchant", Some(m.name), Some(m.address), None)];
        updated := 1;
      } else if store.profiles[owner].role != "merchant" {
        store.profiles := store.profiles[owner := store.profiles[owner].(role := "merchant", storeName := Some(m.name),
                                                                         storeAddress := Some(m.address))];
        updated := 1;
      }
      if (id, owner) !in mk.members {
        mk.members := mk.members[(id, owner) := "owner"];
      }
    } else {
      var base := ComputeBaseName(m.name, id);
      var original := "merchant_" + NatToString(id) + "_" + base;
      var username := FreeUsername(store.users, original);
      var email := username + MailDomain;
      var u := store.nextUserId;
      store.users := store.users[u := User(username, email, DefaultPassword, true)];
      store.nextUserId := u + 1;
      store.profiles := store.profiles[u := Profile("merchant", Some(m.name), Some(m.address), Some(m.phone))];
      mk.merchants := mk.merchants[id := m.(owner := u)];
      mk.members := mk.members[(id, u) := "owner"];
      created := 1;
    }
  }

  /** The loop of `create_merchant_accounts` over the stores of `queue`,
    * one turn each, with the two counters. */
  method FixStoresInTurn(store: AccountStore, mk: Marketplace, queue: seq<nat>) returns (created: nat, updated: nat)
    requires Sound(TablesOf(store, mk))
    requires forall k :: 0 <= k < |queue| ==> queue[k] in mk.merchants
    modifies store, mk
    ensures var r := FixAll(old(TablesOf(store, mk)), queue);
      TablesOf(store, mk) == r.0 && created == r.1 && updated == r.2
    ensures store.otps == old(store.otps) && mk.items == old(mk.items) && mk.orders == old(mk.orders)
    ensures mk.nextOrderId == old(mk.nextOrderId) && mk.nextLineId == old(mk.nextLineId)
  {
    created, updated := 0, 0;
    var i := 0;
    while i < |queue|
      invariant 0 <= i <= |queue|
      invariant var r := FixAll(old(TablesOf(store, mk)), queue[..i]);
        TablesOf(store, mk) == r.0 && created == r.1 && updated == r.2
      invariant mk.merchants.Keys == old(mk.merchants).Keys
      invariant store.otps == old(store.otps) && mk.items == old(mk.items) && mk.orders == old(mk.orders)
      invariant mk.nextOrderId == old(mk.nextOrderId) && mk.nextLineId == old(mk.nextLineId)
    {
      assert queue[..i + 1][..i] == queue[..i];
      var c, u := FixMerchant(store, mk, queue[i]);
      created, updated := created + c, updated + u;
      i := i + 1;
    }
    assert queue[..i] == queue;
  }

  /** `create_merchant_accounts`: `queue` is the store ids in the order the
    * query yields them, each store once. Returns `created_count` and
    * `updated_count`: afterwards every store is settled, and the two
    * counts together are at most the number of stores. */
  method CreateMerchantAccounts(store: AccountStore, mk: Marketplace, queue: seq<nat>) returns (created: nat, updated: nat)
    requires Sound(TablesOf(store, mk))
    requires EachStoreOnce(TablesOf(store, mk), queue)
    modifies store, mk
    ensures forall k :: 0 <= k < |queue| ==> queue[k] in old(mk.merchants)
    ensures var r := FixAll(old(TablesOf(store, mk)), queue);
      TablesOf(store, mk) == r.0 && created == r.1 && updated == r.2
    ensures forall id :: id in mk.merchants ==> Settled(TablesOf(store, mk), id)
    ensures created + updated <= |mk.merchants|
    ensures store.Valid()
    ensures store.otps == old(store.otps) && mk.items == old(mk.items) && mk.orders == old(mk.orders)
    ensures mk.nextOrderId == old(mk.nextOrderId) && mk.nextLineId == old(mk.nextLineId)
  {
    ghost var t0 := TablesOf(store, mk);
    FixAllTable(t0, queue);
    created, updated := FixStoresInTurn(store, mk, queue);
  }
}
