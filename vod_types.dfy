/** Records shared by the admin screens and the players. */
module VodTypes {
  /**
    A video-on-demand source. An absent `playUrl` is the empty string;
    both are falsy to the code that reads it.
   */
  datatype VodSource = VodSource(
    key: string,
    name: string,
    api: string,
    playUrl: string,
    usePlayUrl: bool,
    priority: int,
    kind: string)

  /** One embedded (iframe) parsing player. */
  datatype IframePlayerConfig = IframePlayerConfig(
    id: string,
    name: string,
    url: string,
    priority: int,
    timeout: int,
    enabled: bool)
}
