/** The "Add New Category" dialog: a name, a description, a colour from a fixed palette, and a
    keyword list edited through a text field; keywords are stored trimmed and without duplicates. */
module AddCategoryModal {

  import JsText
  import Lists

  /** The palette the colour buttons offer; the first one is preselected. */
  const ColorOptions: seq<string> := [
    "#3b82f6", "#10b981", "#f59e0b", "#8b5cf6",
    "#ef4444", "#06b6d4", "#ec4899", "#84cc16",
    "#f97316", "#6366f1", "#14b8a6", "#f43f5e"
  ]

  /** The form data handed to `onAddCategory`. */
  datatype CategoryForm = CategoryForm(name: string, description: string, color: string, keywords: seq<string>)

  /** The form the dialog opens with and every reset returns to. */
  const EmptyForm: CategoryForm := CategoryForm("", "", ColorOptions[0], [])

  predicate NoDuplicates(s: seq<string>) {
    forall i, j :: 0 <= i < j < |s| ==> s[i] != s[j]
  }

  /** What every stored keyword looks like: non-empty, already trimmed, and unique. */
  predicate WellFormedKeywords(s: seq<string>) {
    NoDuplicates(s) && forall i :: 0 <= i < |s| ==> s[i] != "" && JsText.Trim(s[i]) == s[i]
  }

  /** The keyword list and the keyword input field. */
  datatype KeywordEditor = KeywordEditor(keywords: seq<string>, newKeyword: string)

  /** `addKeyword`: the trimmed input is appended, and the input cleared, when it is non-empty and
      not yet in the list; otherwise nothing changes. */
  function KeywordAdded(e: KeywordEditor): (r: KeywordEditor)
    ensures JsText.AllWhitespace(e.newKeyword) || JsText.Trim(e.newKeyword) in e.keywords ==> r == e
    ensures !JsText.AllWhitespace(e.newKeyword) && JsText.Trim(e.newKeyword) !in e.keywords ==>
      r.newKeyword == "" && |r.keywords| == |e.keywords| + 1
      && r.keywords[..|e.keywords|] == e.keywords && r.keywords[|e.keywords|] == JsText.Trim(e.newKeyword)
  {
    var keyword := JsText.Trim(e.newKeyword);
    if keyword != "" && keyword !in e.keywords then
      assert (e.keywords + [keyword])[..|e.keywords|] == e.keywords;
      KeywordEditor(e.keywords + [keyword], "")
    else e
  }

  /** `removeKeyword(k)`: every copy of `k` goes, the rest keep their order. */
  function KeywordRemoved(keywords: seq<string>, k: string): (r: seq<string>)
    ensures k !in r
    ensures Lists.IsSubsequence(r, keywords)
    ensures forall i :: 0 <= i < |keywords| && keywords[i] != k ==> keywords[i] in r
    ensures multiset(r) <= multiset(keywords)
    ensures forall i :: 0 <= i < |keywords| && keywords[i] != k ==> multiset(r)[keywords[i]] == multiset(keywords)[keywords[i]]
  {
    var other := (w: string) => w != k;
    Lists.FilterSubMultiset(keywords, other);
    Lists.FilterKeepsCounts(keywords, other);
    Lists.Filter(keywords, other)
  }

  /** Adding keeps the stored keywords well-formed. */
  lemma AddKeepsWellFormed(e: KeywordEditor)
    requires WellFormedKeywords(e.keywords)
    ensures WellFormedKeywords(KeywordAdded(e).keywords)
  {
    var keyword := JsText.Trim(e.newKeyword);
    if keyword != "" && keyword !in e.keywords {
      var r := e.keywords + [keyword];
      JsText.TrimIdempotent(e.newKeyword);
      forall i, j | 0 <= i < j < |r| ensures r[i] != r[j] {
        if j == |e.keywords| {
          assert r[i] in e.keywords;
        }
      }
    }
  }

  /** Removing keeps the stored keywords well-formed. */
  lemma {:induction false} RemoveKeepsWellFormed(keywords: seq<string>, k: string)
    requires WellFormedKeywords(keywords)
    ensures WellFormedKeywords(KeywordRemoved(keywords, k))
  {
    if keywords != [] {
      RemoveKeepsWellFormed(keywords[1..], k);
      var rest := KeywordRemoved(keywords[1..], k);
      if keywords[0] != k {
        assert KeywordRemoved(keywords, k) == [keywords[0]] + rest;
        assert keywords[0] !in rest by {
          assert keywords[0] !in keywords[1..];
          Lists.SubsequenceMembers(rest, keywords[1..]);
        }
        ConsWellFormed(keywords[0], rest);
      } else {
        assert KeywordRemoved(keywords, k) == rest;
      }
    }
  }

  lemma ConsWellFormed(k: string, rest: seq<string>)
    requires WellFormedKeywords(rest) && k != "" && JsText.Trim(k) == k && k !in rest
    ensures WellFormedKeywords([k] + rest)
  {
    var r := [k] + rest;
    forall i, j | 0 <= i < j < |r| ensures r[i] != r[j] {
      if i == 0 {
        assert r[j] == rest[j - 1];
      }
    }
  }

  /** Removing a keyword that was just added gives back the list as it was. */
  lemma RemoveUndoesAdd(e: KeywordEditor)
    requires !JsText.AllWhitespace(e.newKeyword) && JsText.Trim(e.newKeyword) !in e.keywords
    ensures KeywordRemoved(KeywordAdded(e).keywords, JsText.Trim(e.newKeyword)) == e.keywords
  {
    var k := JsText.Trim(e.newKeyword);
    RemoveAbsent(e.keywords, k);
    RemoveLast(e.keywords, k);
  }

  lemma {:induction false} RemoveAbsent(keywords: seq<string>, k: string)
    requires k !in keywords
    ensures KeywordRemoved(keywords, k) == keywords
  {
    if keywords != [] {
      RemoveAbsent(keywords[1..], k);
    }
  }

  lemma {:induction false} RemoveLast(keywords: seq<string>, k: string)
    ensures KeywordRemoved(keywords + [k], k) == KeywordRemoved(keywords, k)
  {
    if keywords == [] {
      assert ([] + [k])[1..] == [];
    } else {
      assert (keywords + [k])[1..] == keywords[1..] + [k];
      RemoveLast(keywords[1..], k);
    }
  }

  /** Adding the same input a second time changes nothing: the keyword is already there. */
  lemma AddTwice(e: KeywordEditor)
    ensures KeywordAdded(KeywordEditor(KeywordAdded(e).keywords, e.newKeyword)) == KeywordEditor(KeywordAdded(e).keywords, e.newKeyword)
  {
    var keyword := JsText.Trim(e.newKeyword);
    if keyword != "" && keyword !in e.keywords {
      assert KeywordAdded(e).keywords[|e.keywords|] == keyword;
    }
  }

  /** The dialog's state. `submitted` is every form handed to `onAddCategory`, and `closeRequests`
      counts the calls of `onClose`. */
  class Modal {
    var form: CategoryForm
    var newKeyword: string
    var submitted: seq<CategoryForm>
    var closeRequests: nat

    predicate Valid()
      reads this
    {
      WellFormedKeywords(form.keywords)
    }

    constructor ()
      ensures form == EmptyForm && newKeyword == "" && submitted == [] && closeRequests == 0
      ensures Valid()
    {
      form := EmptyForm;
      newKeyword := "";
      submitted := [];
      closeRequests := 0;
    }

    /** `addKeyword`. */
    method AddKeyword()
      modifies this
      ensures KeywordEditor(form.keywords, newKeyword) == KeywordAdded(KeywordEditor(old(form.keywords), old(newKeyword)))
      ensures form == old(form).(keywords := form.keywords)
      ensures submitted == old(submitted) && closeRequests == old(closeRequests)
      ensures old(Valid()) ==> Valid()
    {
      if Valid() {
        AddKeepsWellFormed(KeywordEditor(form.keywords, newKeyword));
      }
      var keyword := JsText.Trim(newKeyword);
      if keyword != "" && keyword !in form.keywords {
        form := form.(keywords := form.keywords + [keyword]);
        newKeyword := "";
      }
    }

    /** `removeKeyword(k)`. */
    method RemoveKeyword(k: string)
      modifies this
      ensures form == old(form).(keywords := KeywordRemoved(old(form.keywords), k))
      ensures newKeyword == old(newKeyword) && submitted == old(submitted) && closeRequests == old(closeRequests)
      ensures old(Valid()) ==> Valid()
    {
      if Valid() {
        RemoveKeepsWellFormed(form.keywords, k);
      }
      form := form.(keywords := KeywordRemoved(form.keywords, k));
    }

    /** `handleKeywordKeyPress`: Enter adds the keyword; any other key does nothing. */
    method KeywordKeyPress(key: string)
      modifies this
      ensures key == "Enter" ==>
        KeywordEditor(form.keywords, newKeyword) == KeywordAdded(KeywordEditor(old(form.keywords), old(newKeyword)))
        && form == old(form).(keywords := form.keywords)
      ensures key != "Enter" ==> form == old(form) && newKeyword == old(newKeyword)
      ensures submitted == old(submitted) && closeRequests == old(closeRequests)
      ensures old(Valid()) ==> Valid()
    {
      if key == "Enter" {
        AddKeyword();
      }
    }

    /** `handleClose`: reset the form and the input, and ask the parent to close. */
    method HandleClose()
      modifies this
      ensures form == EmptyForm && newKeyword == ""
      ensures submitted == old(submitted) && closeRequests == old(closeRequests) + 1
      ensures Valid()
    {
      form := EmptyForm;
      newKeyword := "";
      closeRequests := closeRequests + 1;
    }

    /** `handleSubmit`: a name that is blank after trimming does nothing; otherwise the form goes
      to `onAddCategory` and the dialog resets and closes. */
    method HandleSubmit()
      modifies this
      ensures JsText.AllWhitespace(old(form.name)) ==>
        form == old(form) && newKeyword == old(newKeyword) && submitted == old(submitted) && closeRequests == old(closeRequests)
      ensures !JsText.AllWhitespace(old(form.name)) ==>
        submitted == old(submitted) + [old(form)] && form == EmptyForm && newKeyword == "" && closeRequests == old(closeRequests) + 1
      ensures old(Valid()) ==> Valid()
    {
      if JsText.Trim(form.name) == "" {
        return;
      }
      submitted := submitted + [form];
      HandleClose();
    }

    method SetName(name: string)
      modifies this
      ensures form == old(form).(name := name)
      ensures newKeyword == old(newKeyword) && submitted == old(submitted) && closeRequests == old(closeRequests)
    {
      form := form.(name := name);
    }

    method SetDescription(description: string)
      modifies this
      ensures form == old(form).(description := description)
      ensures newKeyword == old(newKeyword) && submitted == old(submitted) && closeRequests == old(closeRequests)
    {
      form := form.(description := description);
    }

    /** A colour button: one of the palette's colours becomes the selection. */
    method SelectColor(i: nat)
      requires i < |ColorOptions|
      modifies this
      ensures form == old(form).(color := ColorOptions[i])
      ensures newKeyword == old(newKeyword) && submitted == old(submitted) && closeRequests == old(closeRequests)
    {
      form := form.(color := ColorOptions[i]);
    }

    method SetNewKeyword(text: string)
      modifies this
      ensures newKeyword == text
      ensures form == old(form) && submitted == old(submitted) && closeRequests == old(closeRequests)
    {
      newKeyword := text;
    }
  }
}
