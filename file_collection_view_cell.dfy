/** A cell of the home and search grids (FileCollectionViewCell.swift): one stored map,
    its lock state, and the buttons that delete, lock and unlock it. */
module FileCells {
  import opened Common

  /** Whether opening the map needs the owner's authentication. */
  datatype MapState = Locked | Regular

  /** The state after the lock button: `regular` becomes `locked`; `locked` and a cell
      without a state become `regular`. */
  function Toggled(state: Option<MapState>): (r: MapState)
    ensures r.Locked? <==> state.Some? && state.value.Regular?
  {
    if state.Some? && state.value.Regular? then Locked else Regular
  }

  /** Pressing the lock button twice gives back the state the cell had. */
  lemma ToggledTwice(state: MapState)
    ensures Toggled(Some(Toggled(Some(state)))) == state
  {
  }

  /** The title of the lock button for a state. */
  function LockTitle(state: MapState): (r: string)
    ensures state.Regular? ==> r == "Lock map"
    ensures state.Locked? ==> r == "Unlock map"
  {
    if state.Regular? then "Lock map" else "Unlock map"
  }

  /** The preview a cell shows: the map's own image while it is regular, the folder icon
      while it is locked. */
  function Preview(image: Image, state: MapState): (r: Image)
    ensures state.Regular? ==> r == image
    ensures state.Locked? ==> r == Folder
  {
    if state.Regular? then image else Folder
  }

  class FileCollectionViewCell {
    var mapName: Option<string>
    var state: Option<MapState>
    /** `editView.isHidden`: whether the delete/lock/edit panel is hidden. */
    var editHidden: bool
    /** `stateImageView.isHidden`: whether the padlock badge is hidden. */
    var stateImageHidden: bool
    var preview: Option<Image>
    var nameTitle: string
    var lockTitle: string

    /** A cell as the collection view hands it out before `configureUI`. */
    constructor ()
      ensures mapName == None && state == None && preview == None
      ensures !editHidden && !stateImageHidden
    {
      mapName := None;
      state := None;
      editHidden := false;
      stateImageHidden := false;
      preview := None;
      nameTitle := "";
      lockTitle := "";
    }

    /** `configureUI(name:image:state:)`: shows the map's name, hides the edit panel, shows
        the padlock and the folder icon exactly when the map is locked, and titles the lock
        button for the action it will perform. */
    method ConfigureUI(name: string, image: Image, state: MapState)
      modifies this
      ensures mapName == Some(name) && this.state == Some(state) && nameTitle == name
      ensures editHidden
      ensures stateImageHidden <==> state.Regular?
      ensures preview == Some(Preview(image, state))
      ensures lockTitle == LockTitle(state)
    {
      mapName := Some(name);
      this.state := Some(state);
      nameTitle := name;
      editHidden := true;
      stateImageHidden := state.Regular?;
      preview := Some(Preview(image, state));
      lockTitle := LockTitle(state);
    }

    /** `editDidTap`: shows or hides the edit panel; nothing else on the cell changes. */
    method EditDidTap()
      modifies this`editHidden
      ensures editHidden == !old(editHidden)
    {
      editHidden := !editHidden;
    }

    /** `deleteDidTap`: when the cell has a map name, asks the delegate to delete that map
        (the name returned) and flips the edit panel; otherwise does nothing. The rest of
        the cell is left as it is. */
    method DeleteDidTap() returns (request: Option<string>)
      modifies this`editHidden
      ensures request == mapName
      ensures editHidden == (if mapName.Some? then !old(editHidden) else old(editHidden))
    {
      request := mapName;
      if mapName.Some? {
        editHidden := !editHidden;
      }
    }

    /** `lockDidTap`: toggles the state, then, when the cell has a map name, asks the
        delegate to store the new state under that name and flips the edit panel. The lock
        title, the preview and the padlock are not touched: they keep showing the old
        state until the next `configureUI`. */
    method LockDidTap() returns (request: Option<(MapState, string)>)
      modifies this`state, this`editHidden
      ensures state == Some(Toggled(old(state)))
      ensures mapName.Some? ==> request == Some((Toggled(old(state)), mapName.value))
      ensures mapName.None? ==> request == None
      ensures editHidden == (if mapName.Some? then !old(editHidden) else old(editHidden))
    {
      state := Some(Toggled(state));
      if mapName.Some? {
        request := Some((state.value, mapName.value));
        editHidden := !editHidden;
      } else {
        request := None;
      }
    }
  }
}
