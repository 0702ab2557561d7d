/** The directory user functions: which search is issued, how the user
    names are collected from its entries, and the ignore filtering. The
    directory itself is a parameter: a function from search request to the
    entries it returns. */
module LdapUsers {
  import opened Optional
  import opened Text
  import opened Lists
  import opened Settings

  /** A directory entry as returned by the search: attribute name to value. */
  type Entry = map<string, string>

  /** The arguments of one directory search. */
  datatype SearchRequest = SearchRequest(baseDn: string, filter: string, scope: string, attributes: seq<string>)

  /** The directory's answer to each search, in the order it returns entries. */
  type Directory = SearchRequest -> seq<Entry>

  /** The search for ordinary users, or with `admin` for the admin group. */
  function UserSearch(l: LdapSection, admin: bool): SearchRequest
  {
    if admin then SearchRequest(l.adminBaseDn, l.adminFilterString, l.searchScope, [l.usernameAttribute])
    else SearchRequest(l.baseDn, l.filterString, l.searchScope, [l.usernameAttribute])
  }

  /** The value of the user name attribute of every entry, in entry order;
      `None` when an entry lacks the attribute. The model assumes that the
      attribute lookup then fails and the run ends; what the LDAP library
      actually returns for a requested attribute the server left out is
      outside the model. */
  function UserNames(entries: seq<Entry>, attribute: string): (users: Option<seq<string>>)
    ensures users.Some? <==> forall i :: 0 <= i < |entries| ==> attribute in entries[i]
    ensures users.Some? ==> |users.value| == |entries|
    ensures users.Some? ==> forall i :: 0 <= i < |entries| ==> users.value[i] == entries[i][attribute]
    decreases |entries|
  {
    if |entries| == 0 then Some([])
    else if attribute !in entries[0] then None
    else
      match UserNames(entries[1..], attribute)
      case None =>
        assert forall i :: 1 <= i < |entries| ==> entries[i] == entries[1..][i - 1];
        None
      case Some(rest) => Some([entries[0][attribute]] + rest)
  }

  /** The users of the ordinary search, or with `admin` of the admin-group
      search: the admin base DN and filter replace the ordinary ones, the
      scope and user name attribute are shared. */
  function Users(l: LdapSection, directory: Directory, admin: bool): (users: Option<seq<string>>)
    ensures var entries := directory(SearchRequest(
              if admin then l.adminBaseDn else l.baseDn,
              if admin then l.adminFilterString else l.filterString,
              l.searchScope, [l.usernameAttribute]));
            users.Some? <==> forall i :: 0 <= i < |entries| ==> l.usernameAttribute in entries[i]
    ensures var entries := directory(SearchRequest(
              if admin then l.adminBaseDn else l.baseDn,
              if admin then l.adminFilterString else l.filterString,
              l.searchScope, [l.usernameAttribute]));
            users.Some? ==>
              && |users.value| == |entries|
              && forall i :: 0 <= i < |entries| ==> users.value[i] == entries[i][l.usernameAttribute]
  {
    UserNames(directory(UserSearch(l, admin)), l.usernameAttribute)
  }

  /** The users less one copy of each comma-separated piece of
      `ignore_users`, matched exactly without trimming, order kept. */
  function FilteredUsers(l: LdapSection, directory: Directory, admin: bool): (users: Option<seq<string>>)
    ensures users.Some? <==> Users(l, directory, admin).Some?
    ensures users.Some? ==>
              var fetched := Users(l, directory, admin).value;
              var pieces := Split(l.ignoreUsers, ',');
              && multiset(users.value) == multiset(fetched) - multiset(pieces)
              && IsSubsequence(users.value, fetched)
              && |fetched| - |pieces| <= |users.value| <= |fetched|
  {
    match Users(l, directory, admin)
    case None => None
    case Some(fetched) => Some(RemoveEach(fetched, Split(l.ignoreUsers, ',')))
  }

  /** Without duplicates in the fetched list, filtering leaves exactly the
      users that match no piece, so no ignored name survives and a second
      filtering changes nothing. */
  lemma FilteredUsersDistinct(l: LdapSection, directory: Directory, admin: bool)
    requires Users(l, directory, admin).Some? && NoDuplicates(Users(l, directory, admin).value)
    ensures var fetched := Users(l, directory, admin).value;
            var pieces := Split(l.ignoreUsers, ',');
            var users := FilteredUsers(l, directory, admin).value;
            && users == Without(fetched, pieces)
            && (forall p :: p in pieces ==> p !in users)
            && RemoveEach(users, pieces) == users
  {
    var fetched := Users(l, directory, admin).value;
    var pieces := Split(l.ignoreUsers, ',');
    RemoveEachDistinct(fetched, pieces);
    var users := Without(fetched, pieces);
    SubsequenceNoDuplicates(users, fetched);
    RemoveEachDistinct(users, pieces);
    WithoutTwice(fetched, pieces);
  }

  /** With duplicates only one copy per piece goes: a user listed twice and
      ignored once stays listed once. */
  lemma DuplicateSurvivesOneIgnore()
    ensures RemoveEach(["alice", "alice", "bob"], Split("alice", ',')) == ["alice", "bob"]
  {
    SplitWithoutSeparator("alice", ',');
    assert FirstIndex(["alice", "alice", "bob"], "alice") == 0;
  }

  /** Pieces are not trimmed: `"carol, bob"` ignores `carol` but not `bob`. */
  lemma IgnorePiecesAreNotTrimmed()
    ensures Split("carol, bob", ',') == ["carol", " bob"]
    ensures RemoveEach(["bob", "carol"], Split("carol, bob", ',')) == ["bob"]
  {
    CommaSpaceSplit();
    RemoveEachSnoc(["bob", "carol"], ["carol"], " bob");
    RemoveEachSingle(["bob", "carol"], "carol");
    assert ["carol"] + [" bob"] == ["carol", " bob"];
    RemoveCarol();
    SpacedBobKept();
  }

  lemma RemoveCarol()
    ensures RemoveFirst(["bob", "carol"], "carol") == ["bob"]
  {
    assert FirstIndex(["bob", "carol"], "carol") == 1;
  }

  lemma SpacedBobKept()
    ensures RemoveFirst(["bob"], " bob") == ["bob"]
  {
    assert |" bob"| != |"bob"|;
  }

  /** The space after the comma stays in the second piece. */
  lemma CommaSpaceSplit()
    ensures Split("carol, bob", ',') == ["carol", " bob"]
  {
    SplitWithoutSeparator(" bob", ',');
    assert "carol, bob" == "carol" + [','] + " bob";
    SplitAfterFirst("carol", ',', " bob");
  }
}
