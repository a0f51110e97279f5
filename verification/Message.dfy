/** Message segments shared by every protocol front end. */
module Message {
  import opened Wrappers

  datatype Segment =
    | Text(text: string)
    | Image(file: string, url: Option<string>)
    | At(qq: string)
    | Face(id: string)
    | Reply(id: string)
    | Record(file: string, url: Option<string>)
    | Video(file: string, url: Option<string>)
    | Forward(id: string)
    | Json(data: string)
    | Xml(data: string)
    | Poke(pokeType: string, id: string)
    | Unknown
}
