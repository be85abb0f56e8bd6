/** The values that flow between the speech services and the subtitle builder. */
module Timeline {

  /** One caption item: a `{"text", "start_ts", "end_ts"}` dict, times in seconds. */
  datatype TimedText = TimedText(text: string, startTs: real, endTs: real)

  /** One display segment: its text lines and its time span. */
  datatype Segment = Segment(text: seq<string>, startTs: real, endTs: real)
}
