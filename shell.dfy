/**
 * The rules of the menu shell that decide what reaches the credential
 * store: how raw input is normalised, which services a search selects,
 * which fields an update carries, and which cipher is active after the
 * master password changes.
 */
module Shell {
  import opened Wrappers
  import opened Fernet
  import opened Schema
  import opened Security
  import opened Credentials

  /** `str(val)`, except that the text "None" becomes `None`. */
  function NormalizeStrValue(val: string): (r: Option<string>)
    ensures r.None? <==> val == "None"
    ensures r.Some? ==> r.value == val
  {
    if val == "None" then None else Some(val)
  }

  // ---------------------------------------------------------------------
  // str.strip()

  /** The characters for which Python's `str.isspace()` holds. */
  predicate IsSpace(c: char) {
    || c == ' ' || '\t' <= c <= '\r' || '\U{1C}' <= c <= '\U{1F}'
    || c == '\U{85}' || c == '\U{A0}' || c == '\U{1680}'
    || '\U{2000}' <= c <= '\U{200A}' || c == '\U{2028}' || c == '\U{2029}'
    || c == '\U{202F}' || c == '\U{205F}' || c == '\U{3000}'
  }

  /** Python's `s.isspace() or s == ""`. */
  predicate AllSpace(s: string) {
    forall i :: 0 <= i < |s| ==> IsSpace(s[i])
  }

  function StripLeft(s: string): (r: string)
    ensures |r| <= |s| && r == s[|s| - |r|..]
    ensures forall i :: 0 <= i < |s| - |r| ==> IsSpace(s[i])
    ensures r != [] ==> !IsSpace(r[0])
  {
    if s != [] && IsSpace(s[0]) then
      var r := StripLeft(s[1..]);
      assert forall i :: 1 <= i < |s| ==> s[i] == s[1..][i - 1];
      r
    else s
  }

  function StripRight(s: string): (r: string)
    ensures |r| <= |s| && r == s[..|r|]
    ensures forall i :: |r| <= i < |s| ==> IsSpace(s[i])
    ensures r != [] ==> !IsSpace(r[|r| - 1])
  {
    if s != [] && IsSpace(s[|s| - 1]) then
      var r := StripRight(s[..|s| - 1]);
      assert forall i :: 0 <= i < |s| - 1 ==> s[i] == s[..|s| - 1][i];
      r
    else s
  }

  /**
   * `r` is the slice of `s` starting at `a`, and everything before and
   * after that slice is whitespace.
   */
  predicate StrippedAt(s: string, r: string, a: nat) {
    && a + |r| <= |s| && r == s[a..a + |r|]
    && AllSpace(s[..a]) && AllSpace(s[a + |r|..])
  }

  /**
   * Python's `s.strip()`: `s` without its leading and trailing whitespace;
   * empty exactly when `s` is all whitespace.
   */
  function Strip(s: string): (r: string)
    ensures r == [] <==> AllSpace(s)
    ensures r != [] ==> !IsSpace(r[0]) && !IsSpace(r[|r| - 1])
    ensures exists a :: StrippedAt(s, r, a)
  {
    var left := StripLeft(s);
    var r := StripRight(left);
    var a := |s| - |left|;
    assert left == s[a..];
    assert r == s[a..a + |r|];
    assert AllSpace(s[..a]) by {
      assert forall i :: 0 <= i < a ==> s[..a][i] == s[i];
    }
    var tail := s[a + |r|..];
    assert AllSpace(tail) by {
      assert forall i :: 0 <= i < |tail| ==> tail[i] == left[|r| + i];
    }
    assert StrippedAt(s, r, a);
    r
  }

  // ---------------------------------------------------------------------
  // Service search (main.py, service_display_and_selector)

  /** `str.lower()` on ASCII letters. */
  function LowerChar(c: char): char {
    if 'A' <= c <= 'Z' then (c as int + 32) as char else c
  }

  function Lower(s: string): (r: string)
    ensures |r| == |s| && forall i :: 0 <= i < |s| ==> r[i] == LowerChar(s[i])
  {
    seq(|s|, i requires 0 <= i < |s| => LowerChar(s[i]))
  }

  /** Python's `query in text` on strings. */
  predicate Contains(text: string, query: string) {
    exists i :: 0 <= i <= |text| - |query| && query <= text[i..]
  }

  /** Case-insensitive substring match of a search query against a service name. */
  predicate ServiceMatches(query: string, name: string) {
    Contains(Lower(name), Lower(query))
  }

  /**
   * The list comprehension over `enumerate(services)`: every matching
   * service paired with its position in the full listing, in listing order.
   */
  function MatchingServices(services: seq<(nat, string)>, query: string): (r: seq<(nat, string)>)
    ensures forall m :: m in r ==> m.0 < |services| && m.1 == services[m.0].1 && ServiceMatches(query, m.1)
    ensures forall i :: 0 <= i < |services| && ServiceMatches(query, services[i].1) ==> (i, services[i].1) in r
    ensures forall a, b :: 0 <= a < b < |r| ==> r[a].0 < r[b].0
  {
    if services == [] then []
    else
      var n := |services| - 1;
      var earlier := MatchingServices(services[..n], query);
      assert forall m :: m in earlier ==> m.0 < n;
      earlier + if ServiceMatches(query, services[n].1) then [(n, services[n].1)] else []
  }

  /** The text branch: none, exactly one, or a refined choice among several matches. */
  function SelectByText(services: seq<(nat, string)>, query: string, refined: Option<int>): (r: Option<string>)
    ensures r.Some? ==> exists i :: 0 <= i < |services| && services[i].1 == r.value && ServiceMatches(query, r.value)
  {
    var matches := MatchingServices(services, query);
    if matches == [] then None
    else if |matches| == 1 then
      assert matches[0] in matches;
      NormalizeStrValue(matches[0].1)
    else
      match refined
      case None => None
      case Some(idx) =>
        if exists j :: 0 <= j < |matches| && matches[j].0 == idx then
          var j :| 0 <= j < |matches| && matches[j].0 == idx;
          assert matches[j] in matches;
          NormalizeStrValue(services[idx].1)
        else None
  }

  lemma NoMatchSelectsNothing(services: seq<(nat, string)>, query: string, refined: Option<int>)
    requires forall i :: 0 <= i < |services| ==> !ServiceMatches(query, services[i].1)
    ensures SelectByText(services, query, refined) == None
  {
  }

  /** A single matching service is selected without asking for a refinement. */
  lemma UniqueMatchSelected(services: seq<(nat, string)>, query: string, refined: Option<int>, i: nat)
    requires i < |services| && ServiceMatches(query, services[i].1)
    requires forall j :: 0 <= j < |services| && j != i ==> !ServiceMatches(query, services[j].1)
    ensures SelectByText(services, query, refined) == NormalizeStrValue(services[i].1)
  {
    var matches := MatchingServices(services, query);
    assert (i, services[i].1) in matches;
    forall a | 0 <= a < |matches|
      ensures matches[a].0 == i
    {
      assert matches[a] in matches;
    }
    IndicesGrow(matches);
    assert matches[|matches| - 1].0 == i;
  }

  /** Strictly increasing positions climb by at least one per step. */
  lemma {:induction false} IndicesGrow(r: seq<(nat, string)>)
    requires forall a, b :: 0 <= a < b < |r| ==> r[a].0 < r[b].0
    ensures forall a :: 0 <= a < |r| ==> r[0].0 + a <= r[a].0
  {
    if |r| > 1 {
      IndicesGrow(r[1..]);
      forall a | 1 <= a < |r|
        ensures r[0].0 + a <= r[a].0
      {
        assert r[a] == r[1..][a - 1];
      }
    }
  }

  /** With several matches, a refined index selects only if it is one of theirs. */
  lemma RefinedSelection(services: seq<(nat, string)>, query: string, idx: int)
    requires |MatchingServices(services, query)| > 1
    ensures SelectByText(services, query, Some(idx)) ==
      if 0 <= idx < |services| && ServiceMatches(query, services[idx].1)
      then NormalizeStrValue(services[idx].1) else None
    ensures SelectByText(services, query, None) == None
  {
    var matches := MatchingServices(services, query);
    if 0 <= idx < |services| && ServiceMatches(query, services[idx].1) {
      assert (idx, services[idx].1) in matches;
    } else if exists j :: 0 <= j < |matches| && matches[j].0 == idx {
      var j :| 0 <= j < |matches| && matches[j].0 == idx;
      assert matches[j] in matches;
    }
  }

  /** What the user typed at the first prompt: a number `int()` accepts, or search text. */
  datatype Input = Number(n: int) | Text(query: string)

  /** The selector's end: a chosen service (`None` for nothing), or an uncaught `IndexError`. */
  datatype Selection = Chosen(service: Option<string>) | IndexError

  /** Python's `xs[n]` position: a negative `n` counts from the end. */
  function PyIndex(len: nat, n: int): (r: Option<nat>)
    ensures r.Some? ==> r.value < len
  {
    if 0 <= n < len then Some(n) else if -(len as int) <= n < 0 then Some(len + n) else None
  }

  /**
   * The selector as written: the numeric branch reports an out-of-range
   * number as invalid but still indexes `services` with it.
   */
  function SelectServiceAsWritten(services: seq<(nat, string)>, input: Input, refined: Option<int>): (r: Selection)
    // It differs from the guarded selector only on out-of-range numbers.
    ensures input.Text? ==> r == SelectService(services, input, refined)
    ensures input.Number? && 0 <= input.n < |services| ==> r == SelectService(services, input, refined)
    ensures input.Number? ==>
      (r == IndexError <==> input.n < -|services| || |services| <= input.n)
  {
    match input
    case Number(n) =>
      var i := PyIndex(|services|, n);
      if i.Some? then Chosen(NormalizeStrValue(services[i.value].1)) else IndexError
    case Text(query) => Chosen(SelectByText(services, query, refined))
  }

  /** The number -1, reported invalid, still selects the last listed service. */
  lemma InvalidNumberStillSelects(services: seq<(nat, string)>, refined: Option<int>)
    requires |services| > 0
    ensures SelectServiceAsWritten(services, Number(-1), refined)
         == Chosen(NormalizeStrValue(services[|services| - 1].1))
    ensures SelectServiceAsWritten(services, Number(|services|), refined) == IndexError
  {
  }

  /** The selector with the range check guarding the numeric branch. */
  function SelectService(services: seq<(nat, string)>, input: Input, refined: Option<int>): (r: Selection)
    ensures r.Chosen?
    ensures input.Number? && r.service.Some? ==>
      0 <= input.n < |services| && r.service.value == services[input.n].1
    ensures r.service.Some? ==> exists i :: 0 <= i < |services| && services[i].1 == r.service.value
  {
    match input
    case Number(n) =>
      if 0 <= n < |services| then Chosen(NormalizeStrValue(services[n].1)) else Chosen(None)
    case Text(query) => Chosen(SelectByText(services, query, refined))
  }

  // ---------------------------------------------------------------------
  // Update arguments (main.py, choice '3')

  /** The keyword parameters of `update_credential` that the shell may pass. */
  datatype Field = Username | Password | Url | Notes

  /** `kwargs[key]` is present exactly when the stripped input is non-blank, and holds it. */
  ghost predicate Carries(kwargs: map<Field, string>, key: Field, input: string) {
    && (key in kwargs <==> Strip(input) != "")
    && (key in kwargs ==> kwargs[key] == Strip(input))
  }

  /** `if input.strip(): kwargs[key] = input.strip()`; other keys are untouched. */
  method PutStripped(kwargs: map<Field, string>, key: Field, input: string)
    returns (kwargs': map<Field, string>)
    requires key !in kwargs
    ensures Carries(kwargs', key, input)
    ensures forall other :: other != key ==> (other in kwargs' <==> other in kwargs)
    ensures forall other :: other != key && other in kwargs ==> kwargs'[other] == kwargs[other]
  {
    kwargs' := kwargs;
    var stripped := Strip(input);
    if stripped != "" {
      kwargs' := kwargs'[key := stripped];
    }
  }

  /**
   * Builds the keyword arguments of the update from the four normalised
   * inputs; a `None` input fails on `.strip()` (`None` result).
   */
  method BuildUpdateArgs(username: Option<string>, password: Option<string>,
                         url: Option<string>, notes: Option<string>)
    returns (kwargs: Option<map<Field, string>>)
    ensures kwargs.Some? <==> username.Some? && password.Some? && url.Some? && notes.Some?
    ensures kwargs.Some? ==>
      && Carries(kwargs.value, Username, username.value)
      && Carries(kwargs.value, Password, password.value)
      && Carries(kwargs.value, Url, url.value)
      && Carries(kwargs.value, Notes, notes.value)
  {
    if username.None? || password.None? || url.None? || notes.None? {
      return None;
    }
    var args: map<Field, string> := map[];
    args := PutStripped(args, Username, username.value);
    args := PutStripped(args, Password, password.value);
    assert Carries(args, Username, username.value);
    args := PutStripped(args, Url, url.value);
    assert Carries(args, Username, username.value) && Carries(args, Password, password.value);
    args := PutStripped(args, Notes, notes.value);
    kwargs := Some(args);
  }

  /** A keyword parameter of `update_credential`: the argument, or its default `None`. */
  function Kwarg(kwargs: map<Field, string>, key: Field): Option<string> {
    if key in kwargs then Some(kwargs[key]) else None
  }

  /**
   * Passed on with `**kwargs`, a field is supplied to the update exactly
   * when its input was not blank, and then with the stripped input.
   */
  lemma KwargsSupplyNonBlankFields(kwargs: map<Field, string>, key: Field, input: string)
    requires Carries(kwargs, key, input)
    ensures Supplied(Kwarg(kwargs, key)) <==> Strip(input) != ""
    ensures Supplied(Kwarg(kwargs, key)) ==> Kwarg(kwargs, key).value == Strip(input)
  {
  }

  /** Blank (all-whitespace) inputs leave the update with nothing to write. */
  lemma BlankInputsUpdateNothing(kwargs: map<Field, string>, username: string, password: string,
                                 url: string, notes: string)
    requires Carries(kwargs, Username, username) && Carries(kwargs, Password, password)
    requires Carries(kwargs, Url, url) && Carries(kwargs, Notes, notes)
    requires AllSpace(username) && AllSpace(password) && AllSpace(url) && AllSpace(notes)
    ensures !Supplied(Kwarg(kwargs, Username)) && !Supplied(Kwarg(kwargs, Password))
    ensures !Supplied(Kwarg(kwargs, Url)) && !Supplied(Kwarg(kwargs, Notes))
  {
  }

  // ---------------------------------------------------------------------
  // Choice '5'

  /**
   * Rotates the master password with the session's cipher as the old one
   * and, when the rotation completes, makes the new key the active cipher,
   * under which every service reads as it did before.
   */
  method ChooseChangeMasterPassword(prim: Primitives, session: Session, files: KeyFiles, db: Table,
                                    console: Console, random16: Bytes, tokenIv: Nonce,
                                    newTokenIv: Nonce, ivs: seq<RowNonces>)
    returns (r: Rotation, ghost used: nat)
    requires Sound(prim) && session.cipher.Some?
    requires |random16| == SALT_LENGTH && db.Valid() && |ivs| == |db.rows|
    modifies session`cipher, files, db, console
    ensures db.Valid()
    ensures files.salt == Some(old(files.salt).GetOr(random16))
    ensures used <= |old(console.lines)| && console.lines == old(console.lines)[used..]
    ensures r.Rotated? ==> session.cipher == Some(r.newKey)
    ensures !r.Rotated? ==> session.cipher == old(session.cipher)
    ensures r.Rotated? ==> forall service ::
      GetCredential(prim, r.newKey, db.rows, service) == GetCredential(prim, old(session.cipher.value), old(db.rows), service)
    ensures !r.Rotated? ==> db.rows == old(db.rows)
    // The token file now accepts the new key and no other.
    ensures r.Rotated? ==>
      && files.verify == Some(prim.encrypt(r.newKey, VERIFICATION_TOKEN, newTokenIv))
      && VerifyMasterPassword(prim, r.newKey, files.verify)
      && forall k :: k != r.newKey ==> !VerifyMasterPassword(prim, k, files.verify)
    ensures !r.Rotated? && old(files.verify).Some? ==> files.verify == old(files.verify)
  {
    var cipher := session.cipher.value;
    ghost var before := db.rows;
    ghost var check, newPassword, used1, used2;
    r, check, newPassword, used1, used2 :=
      ChangeMasterPassword(prim, files, db, console, cipher, random16, tokenIv, newTokenIv, ivs);
    used := used1 + used2;
    if r.Rotated? {
      GetAfterRotation(prim, before, db.rows, cipher, r.newKey, ivs);
      StoredTokenAcceptsOnlyItsKey(prim, r.newKey, newTokenIv);
      ReinitializeCipher(session, r.newKey);
    }
  }

}
