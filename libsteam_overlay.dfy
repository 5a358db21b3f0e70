/** steampak/libsteam/resources/overlay.py: `Overlay.activate` chooses which
    of the two native overlay calls to issue for a page. */
module LibsteamOverlay {
  import opened Wrappers
  import opened PyStrings

  const OVERLAY_PAGE_FRIENDS := "Friends"
  const OVERLAY_PAGE_COMMUNITY := "Community"
  const OVERLAY_PAGE_PLAYERS := "Players"
  const OVERLAY_PAGE_SETTINGS := "Settings"
  const OVERLAY_PAGE_GAME_GROUP := "OfficialGameGroup"
  const OVERLAY_PAGE_STATS := "Stats"
  const OVERLAY_PAGE_ACHIEVEMENTS := "Achievements"

  /** The one native call `activate` issues. */
  datatype OverlayCall =
    | ActivateOverlayUrl(url: string)
    | ActivateOverlayGame(page: string)

  /** `Overlay.activate(page)`: `None` is `''`; a page holding `://` is a URL. */
  function Activate(page: Option<string>): (r: OverlayCall)
    ensures (page.None? || page == Some("")) ==> r == ActivateOverlayGame("")
    ensures page.Some? && Contains(page.value, "://") ==> r == ActivateOverlayUrl(page.value)
    ensures page.Some? && !Contains(page.value, "://") ==> r == ActivateOverlayGame(page.value)
  {
    var p := if page.Some? then page.value else "";
    if Contains(p, "://") then ActivateOverlayUrl(p) else ActivateOverlayGame(p)
  }

  const OVERLAY_PAGES: seq<string> := [
    OVERLAY_PAGE_FRIENDS, OVERLAY_PAGE_COMMUNITY, OVERLAY_PAGE_PLAYERS, OVERLAY_PAGE_SETTINGS,
    OVERLAY_PAGE_GAME_GROUP, OVERLAY_PAGE_STATS, OVERLAY_PAGE_ACHIEVEMENTS]

  lemma NamedPagesHaveNoColon()
    ensures forall k :: 0 <= k < |OVERLAY_PAGES| ==> Free(OVERLAY_PAGES[k], ':')
  {
  }

  /** The named pages hold no `://`, so all of them go to the game overlay. */
  lemma NamedPagesGoToGame(k: nat)
    requires k < |OVERLAY_PAGES|
    ensures Activate(Some(OVERLAY_PAGES[k])) == ActivateOverlayGame(OVERLAY_PAGES[k])
  {
    NamedPagesHaveNoColon();
    NoColonNoUrl(OVERLAY_PAGES[k]);
  }

  /** A text without `:` does not contain `://`. */
  lemma NoColonNoUrl(p: string)
    requires Free(p, ':')
    ensures !Contains(p, "://")
  {
    forall i | 0 <= i && i + 3 <= |p| ensures !OccursAt(p, "://", i) {
      assert p[i..i + 3][0] == p[i];
    }
  }

  /** Whichever page is given, the page reaches the overlay unchanged. */
  lemma ActivateKeepsPage(page: string)
    ensures Activate(Some(page)) == ActivateOverlayUrl(page) || Activate(Some(page)) == ActivateOverlayGame(page)
    ensures Activate(Some(page)).ActivateOverlayUrl? <==> exists i :: OccursAt(page, "://", i)
  {
  }
}
