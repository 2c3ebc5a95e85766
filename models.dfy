/** The data shapes exchanged with the remote API, and the options record. */
module Models {
  import opened Prelude
  import opened Text

  /** A user record; every string property defaults to the empty string. */
  datatype User = User(id: int, email: string, firstName: string, lastName: string, avatar: string)

  /** `new User()`: id 0 and every string empty. */
  const DefaultUser := User(0, "", "", "", "")

  /** The computed FullName: first and last name joined by one space, then trimmed. */
  function FullName(u: User): (r: string)
    ensures NoOuterWhiteSpace(r)
    ensures |r| <= |u.firstName| + 1 + |u.lastName|
  {
    Trim(u.firstName + " " + u.lastName)
  }

  /** Two clean names are joined by exactly one space and nothing is trimmed. */
  lemma FullNameOfCleanNames(u: User)
    requires u.firstName != [] && NoOuterWhiteSpace(u.firstName)
    requires u.lastName != [] && NoOuterWhiteSpace(u.lastName)
    ensures FullName(u) == u.firstName + " " + u.lastName
  {
    var m := u.firstName + " " + u.lastName;
    assert m[0] == u.firstName[0];
    assert m[|m| - 1] == u.lastName[|u.lastName| - 1];
    assert [] + m + [] == m;
    TrimOfPadded([], m, []);
  }

  /** With no last name the full name is the trimmed first name: no dangling space. */
  lemma FullNameWithoutLastName(u: User)
    requires u.lastName == ""
    ensures FullName(u) == Trim(u.firstName)
  {
    assert u.firstName + " " + u.lastName == u.firstName + " ";
    TrimAbsorbsSuffix(u.firstName, " ");
  }

  /** With no first name the full name is the trimmed last name: no leading space. */
  lemma FullNameWithoutFirstName(u: User)
    requires u.firstName == ""
    ensures FullName(u) == Trim(u.lastName)
  {
    assert u.firstName + " " + u.lastName == " " + u.lastName;
    TrimAbsorbsPrefix(u.lastName, " ");
  }

  /** A default-constructed user has an empty full name. */
  lemma DefaultUserFullName()
    ensures FullName(DefaultUser) == ""
  {
    FullNameWithoutLastName(DefaultUser);
  }

  /** The worked example: "Ann" and "Lee" give "Ann Lee". */
  lemma FullNameExample()
    ensures FullName(User(1, "a@b.com", "Ann", "Lee", "x")) == "Ann Lee"
  {
    var u := User(1, "a@b.com", "Ann", "Lee", "x");
    assert NoOuterWhiteSpace(u.firstName) && NoOuterWhiteSpace(u.lastName);
    FullNameOfCleanNames(u);
  }

  /** White space inside a name survives; only the ends are trimmed. */
  lemma FullNameKeepsInnerWhiteSpace()
    ensures FullName(User(2, "", " Mary  Ann", "Lee ", "")) == "Mary  Ann Lee"
  {
    var m := "Mary  Ann Lee";
    assert " Mary  Ann" + " " + "Lee " == " " + m + " ";
    assert NoOuterWhiteSpace(m) by { assert m[0] == 'M' && m[|m| - 1] == 'e'; }
    assert AllWhiteSpace(" ") by { assert " "[0] == ' '; }
    TrimOfPadded(" ", m, " ");
  }

  /** FullName reads only the two name fields. */
  lemma FullNameIgnoresOtherFields(u: User, v: User)
    requires u.firstName == v.firstName && u.lastName == v.lastName
    ensures FullName(u) == FullName(v)
  {
  }

  /** The `support` block of an envelope (carried, never interpreted). */
  datatype Support = Support(url: string, text: string)

  /** The single-item envelope `{ "data": ..., "support": ... }`. */
  datatype ApiResponse<T> = ApiResponse(data: Option<T>, support: Option<Support>)

  /** The page envelope. `data` is None when the JSON carries `"data": null`. */
  datatype UserListResponse = UserListResponse(
    page: int,
    perPage: int,
    total: int,
    totalPages: int,
    data: Option<seq<User>>,
    support: Option<Support>)

  /** `new UserListResponse()`: zero counters and an empty list. */
  const DefaultUserListResponse := UserListResponse(0, 0, 0, 0, Some([]), None)

  /** ExternalApiOptions, bound from the configuration section "ExternalApi". */
  datatype ExternalApiOptions = ExternalApiOptions(
    baseUrl: string,
    timeoutSeconds: int,
    maxRetryAttempts: int,
    cacheExpirationMinutes: int)

  const DefaultOptions := ExternalApiOptions("https://reqres.in/api/", 30, 3, 10)
}
