/** The records the stores hold. Their fields are the ones the core reads and writes; the
    TypeScript interfaces that declare them (types/storeType.ts) are not part of this model. */
module Entities {

  /** A participant. `x`, `y` are its grid cell on the table layout, `id` its position in the
      imported list; the three prize lists form its win record. */
  datatype Person = Person(
    id: int,
    uid: string,
    name: string,
    department: string,
    identity: string,
    x: int,
    y: int,
    createTime: string,
    updateTime: string,
    isWin: bool,
    prizeName: seq<string>,
    prizeTime: seq<string>,
    prizeId: seq<string>)

  /** One "single draw" sub-batch of a prize: how many winners it awards and how many of them
      have been drawn. */
  datatype Separate = Separate(id: string, count: int, isUsedCount: int)

  datatype SeparateCount = SeparateCount(enable: bool, countList: seq<Separate>)

  datatype Picture = Picture(id: string, name: string, url: string)

  datatype Prize = Prize(
    id: string,
    name: string,
    sort: int,
    isAll: bool,
    count: int,
    isUsedCount: int,
    picture: Picture,
    separateCount: SeparateCount,
    desc: string,
    isShow: bool,
    isUsed: bool,
    frequency: int)

  datatype Music = Music(id: string, name: string, url: string)

  datatype Image = Image(id: string, name: string, url: string)
}
