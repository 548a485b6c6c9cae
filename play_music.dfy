/** The music button (src/components/play-music.tsx): a click plays or pauses the current
    track, a right click moves on to the next track of the library. Both act on the global
    store's current track. */
module PlayMusic {

  import opened Wrappers
  import opened Entities
  import opened Lists
  import opened GlobalStore

  /** The position `nextPlay` moves to from the track named `name`: one past its first
      occurrence, wrapping to 0 past the end; an unknown name gives -1 + 1 = 0. */
  function NextIndex(musicList: seq<Music>, name: string): (index: int)
    requires |musicList| > 0
    ensures 0 <= index < |musicList|
  {
    var index := FindIndex(musicList, (m: Music) => m.name == name) + 1;
    if index >= |musicList| then 0 else index
  }

  /** In a library without repeated names the next track after track `i` is track `i + 1`,
      the first one after the last; an unknown name starts from the first track. */
  lemma NextIndexCycles(musicList: seq<Music>, i: int)
    requires forall a, b :: 0 <= a < b < |musicList| ==> musicList[a].name != musicList[b].name
    requires 0 <= i < |musicList|
    ensures NextIndex(musicList, musicList[i].name) == (i + 1) % |musicList|
  {
    var k := FindIndex(musicList, (m: Music) => m.name == musicList[i].name);
    assert k == i;
  }

  lemma NextIndexUnknown(musicList: seq<Music>, name: string)
    requires |musicList| > 0
    requires forall a :: 0 <= a < |musicList| ==> musicList[a].name != name
    ensures NextIndex(musicList, name) == 0
  {
  }

  /** The current track after `playMusic(item, skip)`: nothing for a missing item; a track
      that is playing is paused unless `skip`; otherwise the item plays. */
  function AfterPlayMusic(current: CurrentMusic, item: Option<Music>, skip: bool): (r: CurrentMusic)
    ensures item.None? ==> r == current
    ensures item.Some? ==> r.item == item && (r.paused <==> !current.paused && !skip)
  {
    if item.None? then current
    else if !current.paused && !skip then CurrentMusic(item, true)
    else CurrentMusic(item, false)
  }

  /** Two clicks on the current track bring the play state back to where it was. */
  lemma PlayMusicTwice(current: CurrentMusic, item: Music)
    ensures AfterPlayMusic(AfterPlayMusic(current, Some(item), false), Some(item), false)
            == CurrentMusic(Some(item), current.paused)
  {
  }

  /** `playMusic(item, skip = false)`. */
  method PlayMusicClick(store: GlobalStore, item: Option<Music>, skip: bool := false)
    modifies store
    ensures store.currentMusic == AfterPlayMusic(old(store.currentMusic), item, skip)
    ensures store.globalConfig == old(store.globalConfig)
  {
    if item.None? {
      return;
    }
    if !store.currentMusic.paused && !skip {
      store.SetCurrentMusic(item, true);
      return;
    }
    store.SetCurrentMusic(item, false);
  }

  /** `nextPlay()`: nothing for an empty library; reading the name of a missing current track
      throws (`thrown`); otherwise the next track plays. */
  method NextPlay(store: GlobalStore) returns (thrown: bool)
    modifies store
    ensures store.globalConfig == old(store.globalConfig)
    ensures var list := old(store.globalConfig.musicList);
      if |list| < 1 then !thrown && store.currentMusic == old(store.currentMusic)
      else if old(store.currentMusic.item).None? then thrown && store.currentMusic == old(store.currentMusic)
      else !thrown && store.currentMusic == CurrentMusic(Some(list[NextIndex(list, old(store.currentMusic.item).value.name)]), false)
  {
    var localMusicList := store.globalConfig.musicList;
    if |localMusicList| < 1 {
      return false;
    }
    if store.currentMusic.item.None? {
      return true;
    }
    var name := store.currentMusic.item.value.name;
    var index := FindIndex(localMusicList, (m: Music) => m.name == name);
    index := index + 1;
    if index >= |localMusicList| {
      index := 0;
    }
    store.SetCurrentMusic(Some(localMusicList[index]), false);
    thrown := false;
  }

  /** The mount effect: the first track of the library, paused (`undefined` for an empty one). */
  method Mount(store: GlobalStore)
    modifies store
    ensures store.currentMusic == InitialMusic(old(store.globalConfig.musicList))
    ensures store.globalConfig == old(store.globalConfig)
  {
    var list := store.globalConfig.musicList;
    store.SetCurrentMusic(if |list| > 0 then Some(list[0]) else None, true);
  }
}
