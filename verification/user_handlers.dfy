/**
 * The user commands and queries
 * (src/VendingMachine.Application/Handlers/UserHandlers.cs). The id Identity
 * assigns a new user is a parameter; passwords are not part of the state.
 */
module UserHandlers {
  import opened Wrappers
  import opened DomainExceptions
  import opened Text
  import opened Store
  import opened Dtos

  /**
   * `CreateUserHandler.Handle`: a taken user name is rejected; otherwise the
   * user is stored with a derived e-mail, a zero deposit and the requested
   * role.
   */
  function CreateUser(s: State, request: UserRegistrationDto, newId: string): (r: Outcome<(State, UserDto)>)
    requires ValidRegistration(request)
    requires newId !in s.users
    ensures r.Err? <==> exists id :: id in s.users && s.users[id].userName == request.username
    ensures r.Err? ==> r.error == DuplicateUsername(request.username)
    ensures r.Ok? ==>
      var (s', dto) := r.value;
      && s'.users.Keys == s.users.Keys + {newId}
      && s'.users[newId] == User(request.username, request.username + "@example.com", 0, [request.role])
      && OtherUsersUnchanged(s, s', newId)
      && s'.products == s.products
      && dto == UserDto(newId, request.username, 0, request.role)
  {
    if UsernameHolders(s, request.username) != {} then Err(DuplicateUsername(request.username))
    else
      var user := User(request.username, request.username + "@example.com", 0, [request.role]);
      Ok((AddUser(s, newId, user), UserDto(newId, user.userName, user.deposit, request.role)))
  }

  /**
   * `UpdateUserHandler.Handle`: only one's own profile, only an existing one;
   * a non-blank new user name must not belong to anybody else. The deposit and
   * the roles are kept.
   */
  function UpdateUser(s: State, id: string, request: UserUpdateDto, currentUserId: string): (r: Outcome<(State, UserDto)>)
    requires ValidUserUpdate(request)
    ensures id != currentUserId ==> r == Err(Unauthorized("You can only update your own profile"))
    ensures id == currentUserId && id !in s.users ==> r == Err(UserNotFound(id))
    ensures id == currentUserId && id in s.users && !IsNullOrWhiteSpace(request.username) ==>
      var name := request.username.value;
      (exists other :: other in s.users && other != id && s.users[other].userName == name)
        <==> r == Err(DuplicateUsername(name))
    ensures r.Ok? <==>
      && id == currentUserId && id in s.users
      && (IsNullOrWhiteSpace(request.username)
          || !exists other :: other in s.users && other != id && s.users[other].userName == request.username.value)
    ensures r.Ok? ==>
      var (s', dto) := r.value;
      var name := if IsNullOrWhiteSpace(request.username) then s.users[id].userName else request.username.value;
      && id == currentUserId && id in s.users
      && s'.users.Keys == s.users.Keys
      && s'.users[id] == s.users[id].(userName := name)
      && OtherUsersUnchanged(s, s', id)
      && s'.products == s.products
      && dto == UserDtoOf(id, s'.users[id])
  {
    if id != currentUserId then Err(Unauthorized("You can only update your own profile"))
    else if id !in s.users then Err(UserNotFound(id))
    else if !IsNullOrWhiteSpace(request.username) && UsernameHolders(s, request.username.value) - {id} != {} then
      Err(DuplicateUsername(request.username.value))
    else
      var name := if IsNullOrWhiteSpace(request.username) then s.users[id].userName else request.username.value;
      assert forall other :: other in s.users && other != id && s.users[other].userName == name ==>
        other in UsernameHolders(s, name) - {id};
      var s' := SaveUser(s, id, s.users[id].(userName := name));
      Ok((s', UserDtoOf(id, s'.users[id])))
  }

  /** `DeleteUserHandler.Handle`: only one's own account, and only an existing one. */
  function DeleteUser(s: State, id: string, currentUserId: string): (r: Outcome<State>)
    ensures id != currentUserId ==> r == Err(Unauthorized("You can only delete your own account"))
    ensures id == currentUserId && id !in s.users ==> r == Err(UserNotFound(id))
    ensures r.Ok? <==> id == currentUserId && id in s.users
    ensures r.Ok? ==>
      && r.value.users.Keys == s.users.Keys - {id}
      && OtherUsersUnchanged(s, r.value, id)
      && r.value.products == s.products
  {
    if id != currentUserId then Err(Unauthorized("You can only delete your own account"))
    else if id !in s.users then Err(UserNotFound(id))
    else Ok(RemoveUser(s, id))
  }

  /** `GetUserByIdHandler.Handle`: `None` stands for the null result. */
  function GetUserById(s: State, id: string): (r: Option<UserDto>)
    ensures r.None? <==> id !in s.users
    ensures r.Some? ==>
      && r.value.id == id && r.value.username == s.users[id].userName
      && r.value.deposit == s.users[id].deposit && r.value.role == ReportedRole(s.users[id].roles)
  {
    if id in s.users then Some(UserDtoOf(id, s.users[id])) else None
  }

  /** `GetAllUsersHandler.Handle`, keyed by user id. */
  function GetAllUsers(s: State): (dtos: map<string, UserDto>)
    ensures dtos.Keys == s.users.Keys
    ensures forall id :: id in dtos ==> Some(dtos[id]) == GetUserById(s, id)
  {
    map id | id in s.users :: UserDtoOf(id, s.users[id])
  }

  /** Creating a user keeps user names unique. */
  lemma CreateKeepsUsernamesUnique(s: State, request: UserRegistrationDto, newId: string)
    requires ValidRegistration(request) && newId !in s.users
    requires UniqueUsernames(s)
    requires CreateUser(s, request, newId).Ok?
    ensures UniqueUsernames(CreateUser(s, request, newId).value.0)
  {
    var s' := CreateUser(s, request, newId).value.0;
    forall b | b in s'.users && b != newId
      ensures s'.users[b].userName != request.username
    {
      assert s'.users[b] == s.users[b];
      assert b !in UsernameHolders(s, request.username);
    }
  }

  /** Renaming a user keeps user names unique. */
  lemma UpdateKeepsUsernamesUnique(s: State, id: string, request: UserUpdateDto, currentUserId: string)
    requires ValidUserUpdate(request)
    requires UniqueUsernames(s)
    requires UpdateUser(s, id, request, currentUserId).Ok?
    ensures UniqueUsernames(UpdateUser(s, id, request, currentUserId).value.0)
  {
    var s' := UpdateUser(s, id, request, currentUserId).value.0;
    var name := s'.users[id].userName;
    forall b | b in s'.users && b != id
      ensures s'.users[b].userName != name
    {
      assert s'.users[b] == s.users[b];
      if !IsNullOrWhiteSpace(request.username) {
        assert b !in UsernameHolders(s, name) - {id};
      }
    }
  }

  /** A user may "rename" themselves to the name they already hold. */
  lemma RenameToOwnNameAllowed(s: State, id: string)
    requires id in s.users && UniqueUsernames(s)
    requires LengthIn(s.users[id].userName, 3, 50) && !IsBlank(s.users[id].userName)
    ensures var r := UpdateUser(s, id, UserUpdateDto(Some(s.users[id].userName), None), id);
      r.Ok? && r.value.0 == s
  {
    var name := s.users[id].userName;
    assert UsernameHolders(s, name) == {id};
    assert s.users[id := s.users[id].(userName := name)] == s.users;
  }

  /** A user name held by someone else cannot be taken over. */
  lemma RenameToTakenNameRejected(s: State, id: string, other: string)
    requires id in s.users && other in s.users && other != id
    requires LengthIn(s.users[other].userName, 3, 50) && !IsBlank(s.users[other].userName)
    ensures UpdateUser(s, id, UserUpdateDto(Some(s.users[other].userName), None), id)
            == Err(DuplicateUsername(s.users[other].userName))
  {
    assert other in UsernameHolders(s, s.users[other].userName) - {id};
  }

  /** A registered user is found under the new id with the record the registration returned. */
  lemma CreateThenGetUser(s: State, request: UserRegistrationDto, newId: string)
    requires ValidRegistration(request) && newId !in s.users
    requires CreateUser(s, request, newId).Ok?
    ensures var (s', dto) := CreateUser(s, request, newId).value;
      GetUserById(s', newId) == Some(dto)
  {
    var (s', dto) := CreateUser(s, request, newId).value;
    assert ReportedRole(s'.users[newId].roles) == request.role;
  }

  /** A deleted account is no longer found; every other account still is. */
  lemma DeleteThenGetUser(s: State, id: string, other: string)
    requires DeleteUser(s, id, id).Ok?
    ensures GetUserById(DeleteUser(s, id, id).value, id).None?
    ensures other != id ==> GetUserById(DeleteUser(s, id, id).value, other) == GetUserById(s, other)
  {
  }

  /** A fresh user name registers with a zero deposit; a taken one is reported. */
  lemma CreateUserExamples()
    ensures var request := UserRegistrationDto("testuser", "Test123!", "buyer");
      && ValidRegistration(request)
      && CreateUser(State(map[], map[]), request, "user1")
         == Ok((State(map["user1" := User("testuser", "testuser@example.com", 0, ["buyer"])], map[]),
                UserDto("user1", "testuser", 0, "buyer")))
      && CreateUser(State(map["existing" := User("testuser", "testuser@example.com", 0, ["buyer"])], map[]),
                    request, "user1")
         == Err(DuplicateUsername("testuser"))
  {
    assert !IsBlank("testuser") by {
      assert !IsWhiteSpace("testuser"[0]);
    }
    assert !IsBlank("Test123!") by {
      assert !IsWhiteSpace("Test123!"[0]);
    }
    assert UsernameHolders(State(map[], map[]), "testuser") == {};
    assert "testuser" + "@example.com" == "testuser@example.com";
    assert "existing" in UsernameHolders(
      State(map["existing" := User("testuser", "testuser@example.com", 0, ["buyer"])], map[]), "testuser");
  }
}
