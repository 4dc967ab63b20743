/**
 * Two pieces of the admin panel that shape what reaches the model and user
 * handlers. The model form edits the possible passwords as one comma-separated
 * text: on submit the text is split on `,`, each piece trimmed, empty pieces
 * dropped and the list sent as JSON; on edit the stored JSON list is shown
 * joined with `", "`. The user form pre-fills an edit with the stored row and
 * an empty password.
 */
module AdminPanel {
  import opened Wrappers
  import opened Text
  import opened Json
  import opened Store
  import UsersController

  /** `.map(p => p.trim()).filter(p => p)` over the pieces of a split. */
  function CleanPieces(pieces: seq<string>): (r: seq<string>)
    requires forall i :: 0 <= i < |pieces| ==> ',' !in pieces[i]
    ensures |r| <= |pieces|
    ensures Clean(r)
  {
    if pieces == [] then []
    else
      var t := Trim(pieces[0]);
      assert ',' !in t;
      (if t == "" then [] else [t]) + CleanPieces(pieces[1..])
  }

  /** Non-empty, trimmed and comma-free: the elements a submitted list can hold. */
  predicate Clean(xs: seq<string>) {
    forall i :: 0 <= i < |xs| ==> xs[i] != "" && IsTrimmed(xs[i]) && ',' !in xs[i]
  }

  /** The password list the form submits for its text. */
  function PasswordList(text: string): (r: seq<string>)
    ensures Clean(r)
  {
    CleanPieces(Split(text, ','))
  }

  /** `JSON.stringify(passwords)`: the `possible_passwords` value of the request. */
  function Payload(text: string, c: Codec): (p: string)
    ensures Lawful(c) ==> c.parse(p) == Some(Strings(PasswordList(text)))
  {
    c.serialize(Strings(PasswordList(text)))
  }

  /** The server reads the payload back as exactly the submitted list of strings. */
  lemma PayloadParses(text: string, c: Codec)
    requires Lawful(c)
    ensures c.parse(Payload(text, c)) == Some(Strings(PasswordList(text)))
    ensures var j := c.parse(Payload(text, c)).value;
      j.JArray? && forall i :: 0 <= i < |j.items| ==> j.items[i].JString? && j.items[i].str != ""
  {
    assert c.parse(c.serialize(Strings(PasswordList(text)))) == Some(Strings(PasswordList(text)));
  }

  /** Cleaning the pieces one at a time. */
  lemma CleanPiecesCons(x: string, ps: seq<string>)
    requires ',' !in x && forall i :: 0 <= i < |ps| ==> ',' !in ps[i]
    ensures CleanPieces([x] + ps) == (if Trim(x) == "" then [] else [Trim(x)]) + CleanPieces(ps)
  {
    assert ([x] + ps)[1..] == ps;
  }

  /** `xs.join(", ")` for two or more elements: the first, the separator, the join of the rest. */
  lemma JoinCons(pad: string, xs: seq<string>)
    requires |xs| >= 2
    ensures pad + Join(xs, ", ") == (pad + xs[0]) + [','] + (" " + Join(xs[1..], ", "))
  {
  }

  /** Whitespace alone converts to the empty list. */
  lemma BlankPadIsEmpty(pad: string)
    requires AllSpace(pad) && ',' !in pad
    ensures CleanPieces(Split(pad, ',')) == []
  {
    SplitNoSeparator(pad, ',');
    BlankIffAllSpace(pad);
    CleanPiecesCons(pad, []);
  }

  /** Whitespace, then one clean element, converts to that element. */
  lemma PaddedElement(pad: string, x: string)
    requires AllSpace(pad) && ',' !in pad && x != "" && IsTrimmed(x) && ',' !in x
    ensures CleanPieces(Split(pad + x, ',')) == [x]
  {
    SplitNoSeparator(pad + x, ',');
    TrimAfterSpaces(pad, x);
    CleanPiecesCons(pad + x, []);
  }

  /** Splitting `pad + xs.join(", ")` gives `xs` back when `pad` is whitespace. */
  lemma {:induction false} SplitJoined(pad: string, xs: seq<string>)
    requires AllSpace(pad) && ',' !in pad && Clean(xs)
    ensures CleanPieces(Split(pad + Join(xs, ", "), ',')) == xs
    decreases |xs|
  {
    if |xs| == 0 {
      assert pad + Join(xs, ", ") == pad;
      BlankPadIsEmpty(pad);
    } else if |xs| == 1 {
      assert pad + Join(xs, ", ") == pad + xs[0];
      PaddedElement(pad, xs[0]);
    } else {
      assert Clean(xs[1..]) by {
        forall i | 0 <= i < |xs[1..]| ensures xs[1..][i] != "" && IsTrimmed(xs[1..][i]) && ',' !in xs[1..][i] {
          assert xs[1..][i] == xs[i + 1];
        }
      }
      assert AllSpace(" ") && ',' !in " ";
      SplitJoined(" ", xs[1..]);
      FirstThenRest(pad, xs);
    }
  }

  /** One step of the round trip: the first element, then whatever the rest converts to. */
  lemma FirstThenRest(pad: string, xs: seq<string>)
    requires AllSpace(pad) && ',' !in pad && |xs| >= 2
    requires xs[0] != "" && IsTrimmed(xs[0]) && ',' !in xs[0]
    requires CleanPieces(Split(" " + Join(xs[1..], ", "), ',')) == xs[1..]
    ensures CleanPieces(Split(pad + Join(xs, ", "), ',')) == xs
  {
    var tail := " " + Join(xs[1..], ", ");
    var head := pad + xs[0];
    JoinCons(pad, xs);
    SplitAtSeparator(head, ',', tail);
    TrimAfterSpaces(pad, xs[0]);
    CleanPiecesCons(head, Split(tail, ','));
    assert [xs[0]] + xs[1..] == xs;
  }

  /** The edit text of a clean list converts back to the same list. */
  lemma JoinedListRoundTrip(xs: seq<string>)
    requires Clean(xs)
    ensures PasswordList(Join(xs, ", ")) == xs
  {
    SplitJoined("", xs);
    assert "" + Join(xs, ", ") == Join(xs, ", ");
  }

  /** Converting a text, showing the list and converting again changes nothing. */
  lemma PasswordListIdempotent(text: string)
    ensures PasswordList(Join(PasswordList(text), ", ")) == PasswordList(text)
  {
    JoinedListRoundTrip(PasswordList(text));
  }

  /**
   * The edit prefill as written: `Array.isArray(JSON.parse(p || '[]'))` guards
   * the first parse, but the join parses `p` again without the fallback.
   * `None` is where the effect throws.
   */
  function EditTextAsWritten(stored: Option<string>, c: Codec): (r: Option<string>)
    ensures stored.Some? && stored.value != "" && c.parse(stored.value).Some? && c.parse(stored.value).value.JArray? ==>
      r == Some(Join(ElementTexts(c.parse(stored.value).value.items), ", "))
    ensures stored.Some? && stored.value != "" && c.parse(stored.value).None? ==> r.None?
  {
    var guarded := if stored.None? || stored.value == "" then "[]" else stored.value;
    match c.parse(guarded)
    case None => None
    case Some(first) =>
      if !first.JArray? then Some("")
      else
        match c.parse(if stored.None? then "null" else stored.value)
        case Some(JArray(items)) => Some(Join(ElementTexts(items), ", "))
        case _ => None
  }

  /** A model whose passwords column is NULL or empty crashes the edit form instead of showing an empty text. */
  lemma AsWrittenThrowsOnEmpty(c: Codec)
    requires KnowsLiterals(c)
    ensures EditTextAsWritten(None, c) == None
    ensures EditTextAsWritten(Some(""), c) == None
  {
  }

  /** So does a column holding text that is not JSON, which createModel and updateModel store verbatim. */
  lemma AsWrittenThrowsOnVerbatim(stored: string, c: Codec)
    requires stored != "" && c.parse(stored).None?
    ensures EditTextAsWritten(Some(stored), c) == None
  {
  }

  /**
   * The prefill as intended: the stored list joined with `", "`, a stored text
   * that is not JSON shown as it is (so that saving the form keeps it, split
   * into a list), and an empty text for anything else.
   */
  function EditText(stored: Option<string>, c: Codec): (r: string)
    ensures stored.None? || stored == Some("") ==> r == ""
    ensures stored.Some? && stored.value != "" && c.parse(stored.value).Some? && c.parse(stored.value).value.JArray? ==>
      r == Join(ElementTexts(c.parse(stored.value).value.items), ", ")
    ensures stored.Some? && stored.value != "" && c.parse(stored.value).None? ==> r == stored.value
    ensures stored.Some? && stored.value != "" && c.parse(stored.value).Some? && !c.parse(stored.value).value.JArray? ==>
      r == ""
  {
    if stored.None? || stored.value == "" then ""
    else
      match c.parse(stored.value)
      case None => stored.value
      case Some(JArray(items)) => Join(ElementTexts(items), ", ")
      case _ => ""
  }

  /** Wherever the written prefill does not throw, it shows what the intended one shows. */
  lemma AsWrittenAgreesWhenItAnswers(stored: Option<string>, c: Codec)
    requires KnowsLiterals(c)
    ensures EditTextAsWritten(stored, c).Some? ==> EditTextAsWritten(stored, c) == Some(EditText(stored, c))
  {
  }

  /** The texts of a list of strings are the strings. */
  lemma {:induction false} ElementTextsOfStrings(xs: seq<string>)
    ensures ElementTexts(Strings(xs).items) == xs
  {
    var items := Strings(xs).items;
    assert |ElementTexts(items)| == |xs|;
    forall i | 0 <= i < |xs| ensures ElementTexts(items)[i] == xs[i] {
      assert items[i] == JString(xs[i]);
    }
  }

  /**
   * Submitting a text and opening the same model again shows a text that
   * submits to the same list: the form is stable under edit and save.
   */
  lemma EditAfterSubmitIsStable(text: string, c: Codec)
    requires Lawful(c) && KnowsLiterals(c)
    ensures EditText(Some(Payload(text, c)), c) == Join(PasswordList(text), ", ")
    ensures PasswordList(EditText(Some(Payload(text, c)), c)) == PasswordList(text)
  {
    var xs := PasswordList(text);
    var p := Payload(text, c);
    PayloadParses(text, c);
    assert p != "";
    assert EditText(Some(p), c) == Join(ElementTexts(Strings(xs).items), ", ");
    ElementTextsOfStrings(xs);
    JoinedListRoundTrip(xs);
  }

  /** The user form opened on a listed user: its fields, and an empty password. */
  function UserForm(p: Profile): (f: UsersController.UserFields)
    ensures f.username == Some(p.username) && f.role == Some(Some(p.role)) && f.active == Some(p.active)
    ensures f.password == Some("") && !UsersController.ShortPassword(f)
  {
    UsersController.UserFields(Some(p.username), Some(""), Some(Some(p.role)), Some(p.active))
  }

  /**
   * Saving the pre-filled form of a stored user passes every check of
   * updateUser and writes the row back unchanged, hash included.
   */
  lemma UserFormSavesUnchanged(us: seq<User>, next: int, k: int, hash: string -> string)
    requires UsersOk(us, next) && 0 <= k < |us|
    ensures var f := UserForm(us[k].View());
      && !UsersController.UsernameClash(us, us[k].id, f)
      && !UsersController.ShortPassword(f)
      && !UsersController.BadRole(f)
      && !UsersController.PromotionClash(us, us[k].id, f)
      && UsersController.PatchedUser(us[k], f, hash) == us[k]
  {
    OwnRowFree(us, next, k);
    var f := UserForm(us[k].View());
    assert us[k].role == AdminRole ==> UsersController.IsAdmin(us, us[k].id) by {
      assert us[k] in us;
    }
  }
}
