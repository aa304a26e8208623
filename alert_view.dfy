/** The "new map" prompt (AlertView.swift): the text field for the map's name, the error
    label under it, and the rules a name must meet before the map is created. */
module Alerts {
  import opened Common
  import opened MapFiles
  import opened Storage

  const EmptyName: string := "Map name shouldn't be empty"
  const NameTaken: string := "This map already exist"

  /** Why the text field's contents cannot name a new map, or `None` when they can: a
      missing, empty or whitespace-only name is refused first, then a name whose map file
      exists. */
  function NameProblem(text: Option<string>, files: map<string, Data>): (r: Option<string>)
    ensures r.None? <==> text.Some? && !IsBlank(text.value) && text.value + MmdExtension !in files
    ensures r == Some(EmptyName) <==> text.None? || IsBlank(text.value)
    ensures r == Some(NameTaken) <==> text.Some? && !IsBlank(text.value) && text.value + MmdExtension in files
  {
    if text.Some? && text.value != "" && !IsBlank(text.value) then
      if text.value + MmdExtension in files then Some(NameTaken) else None
    else Some(EmptyName)
  }

  /** A name made of spaces and tabs only is refused as empty, whatever the directory holds. */
  lemma SpacesAndTabsRefused(name: string, files: map<string, Data>)
    requires forall i :: 0 <= i < |name| ==> name[i] == ' ' || name[i] == '\t'
    ensures NameProblem(Some(name), files) == Some(EmptyName)
  {
  }

  /** A line break is not whitespace in this sense: a name holding one is not refused as
      empty. */
  lemma LineBreakNotBlank(name: string, i: nat, files: map<string, Data>)
    requires i < |name| && name[i] == '\n'
    ensures NameProblem(Some(name), files) != Some(EmptyName)
  {
    assert !IsWhitespace(name[i]);
  }

  class AlertView {
    const storage: FileStorage
    /** `textField.text`. */
    var text: Option<string>
    /** `errorLabel.text`. */
    var errorText: Option<string>

    /** `mapWithThisNameExist(name:)`: whether reading the map file `name.mmd` succeeds. */
    function MapWithThisNameExist(name: string): (r: bool)
      reads storage
      ensures r <==> name + MmdExtension in storage.files
    {
      storage.GetFile(name + MmdExtension).Some?
    }

    constructor (storage: FileStorage)
      ensures this.storage == storage && text == Some("") && errorText == None
    {
      this.storage := storage;
      text := Some("");
      errorText := None;
    }

    /** `addButtonDidTap()`: when the name is refused, shows why and keeps the text; when
        it is accepted, clears the text field and the error label and hands the name, as
        typed (untrimmed), to the delegate's `addNode(name:)`. */
    method AddButtonDidTap() returns (added: Option<string>)
      modifies this`text, this`errorText
      ensures added.Some? <==> NameProblem(old(text), storage.files).None?
      ensures added.Some? ==> added.value == old(text).value && text == Some("") && errorText == Some("")
      ensures added.None? ==> text == old(text) && errorText == NameProblem(old(text), storage.files)
    {
      if text.Some? && text.value != "" && !IsBlank(text.value) {
        if MapWithThisNameExist(text.value) {
          errorText := Some(NameTaken);
          added := None;
        } else {
          added := text;
          text := Some("");
          errorText := Some("");
        }
      } else {
        errorText := Some(EmptyName);
        added := None;
      }
    }

    /** `closeButtonDidTap()`: clears the text field; the delegate then closes the prompt. */
    method CloseButtonDidTap()
      modifies this`text
      ensures text == Some("")
    {
      text := Some("");
    }
  }
}
