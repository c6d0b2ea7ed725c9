/** `struct pollfd` as far as the server uses it. */
module PollFds {

  /** The requested events: POLLIN and POLLOUT. */
  datatype Mask = Mask(input: bool, output: bool)

  /** The reported events: POLLIN, POLLOUT, POLLHUP, and POLLERR or POLLNVAL. */
  datatype Revents = Revents(input: bool, output: bool, hup: bool, err: bool)

  datatype PollFd = PollFd(fd: int, events: Mask, revents: Revents) {
    /** POLLIN and POLLOUT are reported only if they are asked for. */
    predicate Reported() {
      (revents.input ==> events.input) && (revents.output ==> events.output)
    }
  }

  const IN := Mask(true, false)
  const OUT := Mask(false, true)
  const NONE := Mask(false, false)
  const QUIET := Revents(false, false, false, false)
}
