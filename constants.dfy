/** Constants of the USDB site that the syncer relies on (constants.py). */
module Constants {
  const BaseUrl: string := "https://usdb.animux.de/"
  /** Song ids below this bound are the ones the song list can contain. */
  const MaxSongId: nat := 100_000
  const MaxSongsPerPage: nat := 100

  const DatasetNotFound: string := "Datensatz nicht gefunden"
  const NotLoggedIn: string := "You are not logged in. Login to use this function."

  /** The site languages the scraper understands. */
  datatype Language = English | German | French

  /** The language-dependent strings of one site language that the modelled code reads. */
  datatype UsdbStrings = UsdbStrings(welcome: string, yes: string, no: string)

  function StringsOf(lang: Language): UsdbStrings {
    match lang
    case English => UsdbStrings("Welcome", "Yes", "No")
    case German => UsdbStrings("Willkommen", "Ja", "Nein")
    case French => UsdbStrings("Bienvenue", "Oui", "Non")
  }
}
