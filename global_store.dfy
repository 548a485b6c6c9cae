/** The global settings store (src/store/global.ts): layout, title, theme, the music and
    picture libraries, and the track being played. */
module GlobalStore {

  import opened Wrappers
  import opened Entities
  import opened Lists
  import opened Json

  datatype Theme = Theme(
    name: string,
    primary: string,
    cardColor: string,
    cardWidth: int,
    cardHeight: int,
    textColor: string,
    luckyCardColor: string,
    textSize: int,
    patternColor: string,
    patternList: seq<int>,
    background: Json)

  datatype GlobalConfig = GlobalConfig(
    rowCount: int,
    isShowPrizeList: bool,
    topTitle: string,
    theme: Theme,
    musicList: seq<Music>,
    imageList: seq<Image>)

  /** The track being played; `item` is missing when the default music list is empty. */
  datatype CurrentMusic = CurrentMusic(item: Option<Music>, paused: bool)

  /** `initialState.globalConfig`, given the default lists of the data file. */
  function InitialConfig(defaultMusicList: seq<Music>, defaultImageList: seq<Image>, defaultPatternList: seq<int>)
    : (c: GlobalConfig)
    ensures c.rowCount == 17 && c.isShowPrizeList && c.topTitle == "NTH Lottery"
    ensures c.theme.name == "dracula" && c.theme.primary == "#0f5fd3"
    ensures c.theme.cardWidth == 140 && c.theme.cardHeight == 200 && c.theme.textSize == 30
    ensures c.theme.patternList == defaultPatternList
    ensures c.musicList == defaultMusicList && c.imageList == defaultImageList
  {
    GlobalConfig(17, true, "NTH Lottery",
      Theme("dracula", "#0f5fd3", "#ff79c6", 140, 200, "#ffffff", "#ECB1AC", 30, "#1b66c9",
            defaultPatternList, JObj([])),
      defaultMusicList, defaultImageList)
  }

  /** `initialState.currentMusic`: the first default track, paused. */
  function InitialMusic(defaultMusicList: seq<Music>): CurrentMusic
  {
    CurrentMusic(if |defaultMusicList| > 0 then Some(defaultMusicList[0]) else None, true)
  }

  /** `list.filter(music => music.id !== id)`. */
  function WithoutMusic(list: seq<Music>, id: string): seq<Music>
  {
    Filter(list, (m: Music) => m.id != id)
  }

  /** `list.filter(image => image.id !== id)`. */
  function WithoutImage(list: seq<Image>, id: string): seq<Image>
  {
    Filter(list, (m: Image) => m.id != id)
  }

  /** Removing a track that was just added with a new id restores the list. */
  lemma {:induction false} RemoveUndoesAddMusic(list: seq<Music>, music: Music)
    requires forall i :: 0 <= i < |list| ==> list[i].id != music.id
    ensures WithoutMusic(list + [music], music.id) == list
    ensures forall m :: m in WithoutMusic(list, music.id) <==> m in list
  {
    FilterConcat(list, [music], (m: Music) => m.id != music.id);
    FilterKeepsAll(list, (m: Music) => m.id != music.id);
    assert Filter([music], (m: Music) => m.id != music.id) == [];
  }

  /** Removing a picture that was just added with a new id restores the list. */
  lemma {:induction false} RemoveUndoesAddImage(list: seq<Image>, image: Image)
    requires forall i :: 0 <= i < |list| ==> list[i].id != image.id
    ensures WithoutImage(list + [image], image.id) == list
  {
    FilterConcat(list, [image], (m: Image) => m.id != image.id);
    FilterKeepsAll(list, (m: Image) => m.id != image.id);
    assert Filter([image], (m: Image) => m.id != image.id) == [];
  }

  /** Removal drops exactly the entries with that id and keeps the order of the rest. */
  lemma RemoveMusicSplits(a: seq<Music>, b: seq<Music>, id: string)
    ensures WithoutMusic(a + b, id) == WithoutMusic(a, id) + WithoutMusic(b, id)
    ensures forall m :: m in WithoutMusic(a + b, id) <==> (m in a + b && m.id != id)
  {
    FilterConcat(a, b, (m: Music) => m.id != id);
  }

  class GlobalStore {
    var globalConfig: GlobalConfig
    var currentMusic: CurrentMusic
    const defaultMusicList: seq<Music>
    const defaultImageList: seq<Image>
    const defaultPatternList: seq<int>

    constructor (defaultMusicList: seq<Music>, defaultImageList: seq<Image>, defaultPatternList: seq<int>)
      ensures globalConfig == InitialConfig(defaultMusicList, defaultImageList, defaultPatternList)
      ensures currentMusic == InitialMusic(defaultMusicList)
      ensures this.defaultMusicList == defaultMusicList && this.defaultImageList == defaultImageList
      ensures this.defaultPatternList == defaultPatternList
    {
      this.defaultMusicList := defaultMusicList;
      this.defaultImageList := defaultImageList;
      this.defaultPatternList := defaultPatternList;
      globalConfig := InitialConfig(defaultMusicList, defaultImageList, defaultPatternList);
      currentMusic := InitialMusic(defaultMusicList);
    }

    method SetRowCount(count: int)
      modifies this
      ensures globalConfig == old(globalConfig).(rowCount := count) && currentMusic == old(currentMusic)
    {
      globalConfig := globalConfig.(rowCount := count);
    }

    method SetTopTitle(title: string)
      modifies this
      ensures globalConfig == old(globalConfig).(topTitle := title) && currentMusic == old(currentMusic)
    {
      globalConfig := globalConfig.(topTitle := title);
    }

    /** `setTheme`: `Object.assign` of a `{name, detail}` object overwrites those two only. */
    method SetTheme(name: string, primary: string)
      modifies this
      ensures globalConfig == old(globalConfig).(theme := old(globalConfig).theme.(name := name, primary := primary))
      ensures currentMusic == old(currentMusic)
    {
      globalConfig := globalConfig.(theme := globalConfig.theme.(name := name, primary := primary));
    }

    /** `setCurrentMusic(musicItem, paused = true)`. */
    method SetCurrentMusic(musicItem: Option<Music>, paused: bool := true)
      modifies this
      ensures currentMusic == CurrentMusic(musicItem, paused) && globalConfig == old(globalConfig)
    {
      currentMusic := CurrentMusic(musicItem, paused);
    }

    method SetCardColor(color: string)
      modifies this
      ensures globalConfig == old(globalConfig).(theme := old(globalConfig).theme.(cardColor := color))
      ensures currentMusic == old(currentMusic)
    {
      globalConfig := globalConfig.(theme := globalConfig.theme.(cardColor := color));
    }

    method SetLuckyCardColor(color: string)
      modifies this
      ensures globalConfig == old(globalConfig).(theme := old(globalConfig).theme.(luckyCardColor := color))
      ensures currentMusic == old(currentMusic)
    {
      globalConfig := globalConfig.(theme := globalConfig.theme.(luckyCardColor := color));
    }

    method SetTextColor(color: string)
      modifies this
      ensures globalConfig == old(globalConfig).(theme := old(globalConfig).theme.(textColor := color))
      ensures currentMusic == old(currentMusic)
    {
      globalConfig := globalConfig.(theme := globalConfig.theme.(textColor := color));
    }

    /** `setCardSize`: the two card dimensions and nothing else. */
    method SetCardSize(width: int, height: int)
      modifies this
      ensures globalConfig == old(globalConfig).(theme := old(globalConfig).theme.(cardWidth := width, cardHeight := height))
      ensures currentMusic == old(currentMusic)
    {
      globalConfig := globalConfig.(theme := globalConfig.theme.(cardWidth := width));
      globalConfig := globalConfig.(theme := globalConfig.theme.(cardHeight := height));
    }

    method SetTextSize(size: int)
      modifies this
      ensures globalConfig == old(globalConfig).(theme := old(globalConfig).theme.(textSize := size))
      ensures currentMusic == old(currentMusic)
    {
      globalConfig := globalConfig.(theme := globalConfig.theme.(textSize := size));
    }

    /** `setPatterColor`. */
    method SetPatternColor(color: string)
      modifies this
      ensures globalConfig == old(globalConfig).(theme := old(globalConfig).theme.(patternColor := color))
      ensures currentMusic == old(currentMusic)
    {
      globalConfig := globalConfig.(theme := globalConfig.theme.(patternColor := color));
    }

    method SetPatternList(list: seq<int>)
      modifies this
      ensures globalConfig == old(globalConfig).(theme := old(globalConfig).theme.(patternList := list))
      ensures currentMusic == old(currentMusic)
    {
      globalConfig := globalConfig.(theme := globalConfig.theme.(patternList := list));
    }

    method ResetPatternList()
      modifies this
      ensures globalConfig == old(globalConfig).(theme := old(globalConfig).theme.(patternList := defaultPatternList))
      ensures currentMusic == old(currentMusic)
    {
      globalConfig := globalConfig.(theme := globalConfig.theme.(patternList := defaultPatternList));
    }

    /** `addMusic`: one track appended. */
    method AddMusic(music: Music)
      modifies this
      ensures globalConfig == old(globalConfig).(musicList := old(globalConfig).musicList + [music])
      ensures currentMusic == old(currentMusic)
    {
      globalConfig := globalConfig.(musicList := globalConfig.musicList + [music]);
    }

    /** `removeMusic`: every track with that id removed. */
    method RemoveMusic(musicId: string)
      modifies this
      ensures globalConfig == old(globalConfig).(musicList := WithoutMusic(old(globalConfig).musicList, musicId))
      ensures currentMusic == old(currentMusic)
    {
      globalConfig := globalConfig.(musicList := WithoutMusic(globalConfig.musicList, musicId));
    }

    method ResetMusicList()
      modifies this
      ensures globalConfig == old(globalConfig).(musicList := defaultMusicList)
      ensures currentMusic == old(currentMusic)
    {
      globalConfig := globalConfig.(musicList := defaultMusicList);
    }

    method ClearMusicList()
      modifies this
      ensures globalConfig == old(globalConfig).(musicList := [])
      ensures currentMusic == old(currentMusic)
    {
      globalConfig := globalConfig.(musicList := []);
    }

    /** `addImage`: one picture appended. */
    method AddImage(image: Image)
      modifies this
      ensures globalConfig == old(globalConfig).(imageList := old(globalConfig).imageList + [image])
      ensures currentMusic == old(currentMusic)
    {
      globalConfig := globalConfig.(imageList := globalConfig.imageList + [image]);
    }

    /** `removeImage`: every picture with that id removed. */
    method RemoveImage(imageId: string)
      modifies this
      ensures globalConfig == old(globalConfig).(imageList := WithoutImage(old(globalConfig).imageList, imageId))
      ensures currentMusic == old(currentMusic)
    {
      globalConfig := globalConfig.(imageList := WithoutImage(globalConfig.imageList, imageId));
    }

    method ResetImageList()
      modifies this
      ensures globalConfig == old(globalConfig).(imageList := defaultImageList)
      ensures currentMusic == old(currentMusic)
    {
      globalConfig := globalConfig.(imageList := defaultImageList);
    }

    method ClearImageList()
      modifies this
      ensures globalConfig == old(globalConfig).(imageList := [])
      ensures currentMusic == old(currentMusic)
    {
      globalConfig := globalConfig.(imageList := []);
    }

    /** `setIsShowPrizeList`. */
    method SetIsShowPrizeList(show: bool)
      modifies this
      ensures globalConfig == old(globalConfig).(isShowPrizeList := show) && currentMusic == old(currentMusic)
    {
      globalConfig := globalConfig.(isShowPrizeList := show);
    }

    method SetBackground(background: Json)
      modifies this
      ensures globalConfig == old(globalConfig).(theme := old(globalConfig).theme.(background := background))
      ensures currentMusic == old(currentMusic)
    {
      globalConfig := globalConfig.(theme := globalConfig.theme.(background := background));
    }

    /** `reset`: the initial state again, the row count 17 and the default lists included. */
    method Reset()
      modifies this
      ensures globalConfig == InitialConfig(defaultMusicList, defaultImageList, defaultPatternList)
      ensures currentMusic == InitialMusic(defaultMusicList)
    {
      globalConfig := InitialConfig(defaultMusicList, defaultImageList, defaultPatternList);
      currentMusic := InitialMusic(defaultMusicList);
    }
  }
}
