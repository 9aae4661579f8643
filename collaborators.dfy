/**
 * The two objects a Fauxmo device talks to: the asyncio transport of its
 * TCP connection, and the plugin that switches the real device.
 */
module Collaborators {

  import opened Utf8

  /** The transport of one TCP connection: what was written to it, and how often it was closed. */
  class Transport {
    /** The bytes of every `write` call, in order. */
    var writes: seq<seq<byte>>
    var closes: nat

    constructor ()
      ensures writes == [] && closes == 0
    {
      writes, closes := [], 0;
    }

    method Write(data: seq<byte>)
      modifies this
      ensures writes == old(writes) + [data] && closes == old(closes)
    {
      writes := writes + [data];
    }

    method Close()
      modifies this
      ensures writes == old(writes) && closes == old(closes) + 1
    {
      closes := closes + 1;
    }
  }

  /** One call made to a plugin, with what it returned. */
  datatype PluginEvent = GotState(state: string) | SwitchedOn(ok: bool) | SwitchedOff(ok: bool)

  /**
   * A plugin: its name, and `get_state`, `on` and `off`, whose results the
   * core does not know in advance. The log records every call made to it,
   * in order, with the value it returned.
   */
  class Plugin {
    const name: string
    var log: seq<PluginEvent>

    constructor (name: string)
      ensures this.name == name && log == []
    {
      this.name := name;
      log := [];
    }

    method GetState() returns (state: string)
      modifies this
      ensures log == old(log) + [GotState(state)]
    {
      state := *;
      log := log + [GotState(state)];
    }

    method On() returns (ok: bool)
      modifies this
      ensures log == old(log) + [SwitchedOn(ok)]
    {
      ok := *;
      log := log + [SwitchedOn(ok)];
    }

    method Off() returns (ok: bool)
      modifies this
      ensures log == old(log) + [SwitchedOff(ok)]
    {
      ok := *;
      log := log + [SwitchedOff(ok)];
    }
  }
}
