/** The records the application keeps in its single stored blob
    `{playlists, questions}`: questions are keyed by URL and shared by
    every playlist that lists that URL. */
module AppData {
  import opened Wrappers

  /** `completionStatus`: 'Not Started', 'In Progress' or 'Completed'. */
  datatype Status = NotStarted | InProgress | Completed

  /** One entry of a question's history, as the solve page stores it. */
  datatype Attempt = Attempt(
    date: string,
    timeThink: int,
    timeCode: int,
    sawSolution: bool,
    totalTime: int,
    remarks: string)

  /** A tracked question. `title` is None where the stored title is `undefined`. */
  datatype Question = Question(
    url: string,
    title: Option<string>,
    difficulty: string,
    topics: seq<string>,
    totalAttempts: int,
    unaidedAttempts: int,
    completionStatus: Status,
    history: seq<Attempt>)

  /** One entry of a playlist's speedrun history; only its total time is read. */
  datatype SpeedrunRun = SpeedrunRun(totalTime: int)

  /** A named playlist's value: its ordered URL list and speedrun history. */
  datatype Playlist = Playlist(urls: seq<string>, speedrunHistory: seq<SpeedrunRun>)

  type Playlists = map<string, Playlist>

  type Questions = map<string, Question>

  /** `questionsData[url]?.completionStatus === 'Completed'`. */
  predicate IsCompletedAt(questions: Questions, url: string) {
    url in questions && questions[url].completionStatus == Completed
  }
}
