/** The client side of the profile update: the mutation that posts the form,
    turns a failed response into an error, and rewrites duplicate-key errors into
    messages for the user. */
module UpdateProfileHook {
  import opened Documents
  import Text

  /** A value thrown into the mutation's `catch`: an `Error` with its message, or
      something else. */
  datatype Thrown = ErrorValue(message: string) | NonError

  /** How the request settled: a response with its `ok` flag and parsed body, or a
      throw from `fetch` or from parsing the body. */
  datatype Settled = Received(ok: bool, data: Body) | Failed(thrown: Thrown)

  /** The mutation's promise: resolved with the body, or rejected with an `Error`. */
  datatype Mutation = Resolved(data: Body) | Rejected(message: string)

  const Fallback := "Something went wrong"
  const EmailInUse := "Email already in use."
  const UsernameInUse := "Username already taken."
  // Written in pieces so that the prover handles four short literals, not one long
  // one, when it shows the text lacks a 'p' (AlreadyInUseLacksP).
  const AlreadyInUse := "This inform" + "ation is alre" + "ady in use by" + " another account."
  /** The TypeError a JavaScript engine raises for `data.error` when `data` is `null`. */
  const NullRead := "Cannot read" + " properties of" + " null (reading" + " 'error')"

  /** The message of the `Error` thrown when the response is not ok:
      `data.error || "Something went wrong"`, or the TypeError that reading
      `error` off a JSON `null` body raises. */
  function ErrorField(data: Body): (r: string)
    ensures r != ""
    ensures data.NullBody? ==> r == NullRead
    ensures data.ErrorBody? && data.error != "" ==> r == data.error
    ensures !data.NullBody? && !(data.ErrorBody? && data.error != "") ==> r == Fallback
  {
    if data.NullBody? then NullRead
    else if data.ErrorBody? && data.error != "" then data.error
    else Fallback
  }

  /** The rewriting of an error message in the mutation's `catch`. */
  function Classify(message: string): (r: string)
    ensures !Text.Contains(message, "duplicate key") ==> r == message
    ensures Text.Contains(message, "duplicate key") ==>
      r == (if Text.Contains(message, "email") then EmailInUse
            else if Text.Contains(message, "username") then UsernameInUse
            else AlreadyInUse)
  {
    if message != "" && Text.Contains(message, "duplicate key") then
      if Text.Contains(message, "email") then EmailInUse
      else if Text.Contains(message, "username") then UsernameInUse
      else AlreadyInUse
    else message
  }

  /** The mutation function, from how the request settled. */
  function MutationFn(s: Settled): (r: Mutation)
    ensures s.Received? && s.ok ==> r == Resolved(s.data)
    ensures s.Received? && !s.ok ==> r == Rejected(Classify(ErrorField(s.data)))
    ensures s.Failed? && s.thrown.ErrorValue? ==> r == Rejected(Classify(s.thrown.message))
    ensures s == Failed(NonError) ==> r == Rejected(Fallback)
  {
    match s
    case Received(ok, data) =>
      if ok then Resolved(data) else Rejected(Classify(ErrorField(data)))
    case Failed(ErrorValue(m)) => Rejected(Classify(m))
    case Failed(NonError) => Rejected(Fallback)
  }

  // ---------------------------------------------------------------------------
  // Properties

  /** None of the three rewritten messages mentions a duplicate key (none has a
      `p`). */
  lemma AlreadyInUsePlain()
    ensures !Text.Contains(AlreadyInUse, "duplicate key")
  {
    AlreadyInUseLacksP();
    WithoutP(AlreadyInUse);
  }

  lemma AlreadyInUseLacksP()
    ensures 'p' !in AlreadyInUse
  {
    assert 'p' !in "This inform";
    assert 'p' !in "ation is alre";
    assert 'p' !in "ady in use by";
    assert 'p' !in " another account.";
  }

  lemma WithoutP(s: string)
    requires 'p' !in s
    ensures !Text.Contains(s, "duplicate key")
  {
    Text.MissingCharacter(s, "duplicate key", 'p');
  }

  /** A failed response with a `null` body rejects with the TypeError, which the
      rewriting leaves alone. */
  lemma NullBodyRejected()
    ensures MutationFn(Received(false, NullBody)) == Rejected(NullRead)
  {
    NullReadLacksK();
    Text.MissingCharacter(NullRead, "duplicate key", 'k');
  }

  lemma NullReadLacksK()
    ensures 'k' !in NullRead
  {
    assert 'k' !in "Cannot read";
    assert 'k' !in " properties of";
    assert 'k' !in " null (reading";
    assert 'k' !in " 'error')";
  }

  /** The rewritten messages are left alone by a second rewriting. */
  lemma RewrittenIsFixed(r: string)
    requires r == EmailInUse || r == UsernameInUse || r == AlreadyInUse
    ensures Classify(r) == r
  {
    if r == EmailInUse {
      WithoutP(EmailInUse);
    } else if r == UsernameInUse {
      WithoutP(UsernameInUse);
    } else {
      AlreadyInUsePlain();
    }
  }

  /** Rewriting a message twice is rewriting it once. */
  lemma ClassifyIdempotent(message: string)
    ensures Classify(Classify(message)) == Classify(message)
  {
    if Text.Contains(message, "duplicate key") {
      RewrittenIsFixed(Classify(message));
    }
  }

  /** Every duplicate-key message mentions a duplicate key and the field. */
  lemma DuplicateKeyMentions(field: string, value: string)
    ensures Text.Contains(DuplicateKeyMessage(field, value), "duplicate key")
    ensures Text.Contains(DuplicateKeyMessage(field, value), field)
  {
    MentionsDuplicateKey(field, value);
    MentionsField(field, value);
  }

  lemma MentionsDuplicateKey(field: string, value: string)
    ensures Text.Contains(DuplicateKeyMessage(field, value), "duplicate key")
  {
    Text.EndsWith("E11000 ", "duplicate key");
    KeyKept("E11000 " + "duplicate key", field, value);
  }

  lemma KeyKept(m: string, field: string, value: string)
    requires Text.Contains(m, "duplicate key")
    ensures Text.Contains(m + " error collection" + ":" + " users index: " + field + "_1 dup key: { " + field + ": "
      + "\"" + value + "\"" + " }", "duplicate key")
  {
    var rest := " error collection" + ":" + " users index: " + field + "_1 dup key: { " + field + ": "
      + "\"" + value + "\"" + " }";
    assert m + " error collection" + ":" + " users index: " + field + "_1 dup key: { " + field + ": "
      + "\"" + value + "\"" + " }" == m + rest;
    Text.ContainsExtend(m, "duplicate key", rest);
  }

  lemma MentionsField(field: string, value: string)
    ensures Text.Contains(DuplicateKeyMessage(field, value), field)
  {
    var m := "E11000 " + "duplicate key" + " error collection" + ":" + " users index: ";
    Text.EndsWith(m, field);
    FieldKept(m + field, field, value);
  }

  lemma FieldKept(m: string, field: string, value: string)
    requires Text.Contains(m, field)
    ensures Text.Contains(m + "_1 dup key: { " + field + ": " + "\"" + value + "\"" + " }", field)
  {
    var rest := "_1 dup key: { " + field + ": " + "\"" + value + "\"" + " }";
    assert m + "_1 dup key: { " + field + ": " + "\"" + value + "\"" + " }" == m + rest;
    Text.ContainsExtend(m, field, rest);
  }

  /** The server's duplicate-email error reaches the user as "Email already in use.". */
  lemma DuplicateEmailShown(value: string)
    ensures MutationFn(Received(false, ErrorBody(DuplicateKeyMessage("email", value)))) == Rejected(EmailInUse)
  {
    DuplicateKeyMentions("email", value);
  }

  /** The duplicate-username error reaches the user as "Username already taken."
      unless the username itself contains "email". */
  lemma DuplicateUsernameShown(value: string)
    ensures var shown := MutationFn(Received(false, ErrorBody(DuplicateKeyMessage("username", value))));
      shown == Rejected(if Text.Contains(value, "email") then EmailInUse else UsernameInUse)
  {
    var m := DuplicateKeyMessage("username", value);
    DuplicateKeyMentions("username", value);
    var head := "E11000 " + "duplicate key" + " error collection" + ":" + " users index: " + "username"
      + "_1 dup key: { " + "username" + ": " + "\"";
    var c := "\"" + " }";
    assert m == head + value + c;
    if Text.Contains(value, "email") {
      Text.ContainsInside(head, value, c);
      ContainsTransitive(m, value, "email");
    } else {
      // The message is A : B " value " C, where A lacks 'm', B lacks 'l' and C
      // lacks 'e', and neither ':' nor '"' occurs in "email".
      EmailAbsentAround(value);
    }
  }

  /** The text around the value of a duplicate-username message holds no "email". */
  lemma EmailAbsentAround(value: string)
    requires !Text.Contains(value, "email")
    ensures !Text.Contains(DuplicateKeyMessage("username", value), "email")
  {
    var m := DuplicateKeyMessage("username", value);
    var inner := value + ['"'] + " }";
    var outer := " users index: " + "username" + "_1 dup key: { " + "username" + ": " + ['"'] + inner;
    assert m == "E11000 " + "duplicate key" + " error collection" + [':'] + outer;
    NoEmailBeforeQuote(value);
    NoEmailInIndex(inner);
    NoEmailInCollection(outer);
  }

  // The message is A : B " value " C, where A lacks 'm', B lacks 'l' and C lacks
  // 'e', and neither ':' nor '"' occurs in "email".

  lemma NoEmailBeforeQuote(value: string)
    requires !Text.Contains(value, "email")
    ensures !Text.Contains(value + ['"'] + " }", "email")
  {
    Text.SplitAtSeparator(value, '"', " }", "email");
    Text.MissingCharacter(" }", "email", 'e');
  }

  lemma NoEmailInIndex(inner: string)
    requires !Text.Contains(inner, "email")
    ensures !Text.Contains(" users index: " + "username" + "_1 dup key: { " + "username" + ": " + ['"'] + inner, "email")
  {
    var b := " users index: " + "username" + "_1 dup key: { " + "username" + ": ";
    Text.SplitAtSeparator(b, '"', inner, "email");
    Text.MissingCharacter(b, "email", 'l');
  }

  lemma NoEmailInCollection(outer: string)
    requires !Text.Contains(outer, "email")
    ensures !Text.Contains("E11000 " + "duplicate key" + " error collection" + [':'] + outer, "email")
  {
    var a := "E11000 " + "duplicate key" + " error collection";
    Text.SplitAtSeparator(a, ':', outer, "email");
    Text.MissingCharacter(a, "email", 'm');
  }

  /** `includes` is transitive. */
  lemma ContainsTransitive(s: string, t: string, u: string)
    requires Text.Contains(s, t) && Text.Contains(t, u)
    ensures Text.Contains(s, u)
  {
    Text.ContainsMeansOccurs(s, t);
    Text.ContainsMeansOccurs(t, u);
    var i :| Text.OccursAt(s, t, i);
    var j :| Text.OccursAt(t, u, j);
    forall k | 0 <= k < |u| ensures s[i + j + k] == u[k] {
      assert t[j..j + |u|][k] == t[j + k];
      assert s[i..i + |t|][j + k] == s[i + j + k];
    }
    assert s[i + j..i + j + |u|] == u;
    assert Text.OccursAt(s, u, i + j);
    Text.ContainsMeansOccurs(s, u);
  }

  /** A profile save that clashes with another account always reaches the user as
      one of the two specific messages, never the generic one or the raw error. */
  lemma SaveConflictShown(users: seq<User>, i: nat, u: User)
    requires SaveConflict(users, i, u).Some?
    ensures var shown := MutationFn(Received(false, ErrorBody(SaveConflict(users, i, u).value)));
      shown == Rejected(EmailInUse) || shown == Rejected(UsernameInUse)
  {
    DuplicateEmailShown(u.email);
    DuplicateUsernameShown(u.username);
  }
}
