/** The writeback maps of one display as the fields HWCDisplay updates in place.  Each method is one
    lock-held section and is proved to do what `CwbCapture` says. */
module CwbMaps {
  import opened CwbCapture
  import opened KeyOrder

  /** The references that are still good once the answers are `captures`. */
  ghost function Kept(held: set<Client>, captures: map<Client, Response>): set<Client> {
    held * captures.Keys
  }

  /** The client's answer, if it has any, is not about the buffer any more; the others' are untouched. */
  predicate Forgets(before: map<Client, Response>, after: map<Client, Response>, client: Client, handle: nat) {
    && (forall c :: c != client ==> (c in after <==> c in before))
    && (forall c :: c != client && c in after ==> after[c] == before[c])
    && (client in after ==> after[client].handle != handle)
    && (client in before && before[client].handle != handle ==> client in after && after[client] == before[client])
  }

  class HWCDisplay {
    var bufferMap: map<nat, Client>              // cwb_buffer_map_
    var captureStatusMap: map<Client, Response>  // cwb_capture_status_map_
    var outputBuffer: Output                     // layer_stack_.output_buffer
    ghost var held: set<Client>                  // whose answers a waiting handler has a good reference to

    constructor ()
      ensures Valid() && View() == EMPTY && held == {}
    {
      bufferMap, captureStatusMap, outputBuffer, held := map[], map[], NoOutput, {};
    }

    ghost predicate Valid()
      reads this
    {
      held <= captureStatusMap.Keys
    }

    ghost function View(): State
      reads this
    {
      State(bufferMap, captureStatusMap, outputBuffer)
    }

    /** cwb_capture_status_map_[client] */
    method At(client: Client) returns (r: Response)
      modifies this`captureStatusMap
      ensures captureStatusMap == Touch(old(captureStatusMap), client) && r == captureStatusMap[client]
    {
      if client !in captureStatusMap {
        captureStatusMap := captureStatusMap[client := UNSET];
      }
      r := captureStatusMap[client];
    }

    /** cwb_capture_status_map_.erase(client) */
    method Erase(client: Client)
      modifies this`captureStatusMap, this`held
      ensures captureStatusMap == old(captureStatusMap) - {client} && held == old(held) - {client}
    {
      captureStatusMap := captureStatusMap - {client};
      held := held - {client};
    }

    /** The locked section of an accepted request. */
    method Enter(client: Client, handle: nat)
      requires Valid()
      modifies this`bufferMap, this`captureStatusMap, this`held
      ensures View() == old(Accept(View(), handle, client))
      ensures Valid() && held == Kept(old(held), captureStatusMap)
      ensures bufferMap == map[handle := client] + old(bufferMap)
      ensures Forgets(old(captureStatusMap), captureStatusMap, client, handle)
    {
      if handle !in bufferMap {
        bufferMap := bufferMap[handle := client];
      }
      var response := At(client);
      if response.handle == handle {
        Erase(client);
      }
    }

    method SetReadbackBuffer(client: Client, request: Request) returns (error: Error)
      requires Valid()
      modifies this`bufferMap, this`captureStatusMap, this`held
      ensures View() == old(CwbCapture.SetReadbackBuffer(View(), client, request))
      ensures error == None <==>
        && !request.poweredDown && !request.secureTransition
        && request.hasBuffer && request.fdValid && request.formatOk && request.driver == Taken
      ensures request.poweredDown ==> error == BadDisplay
      ensures !request.poweredDown && request.secureTransition ==> error == Unsupported
      ensures !request.poweredDown && !request.secureTransition ==>
        && (!request.hasBuffer || !request.fdValid || !request.formatOk ==> error == BadParameter)
        && (request.hasBuffer && request.fdValid && request.formatOk ==>
              && (request.driver == BadParameters ==> error == BadParameter)
              && (request.driver == OtherError ==> error == Unsupported))
      ensures error != None ==> bufferMap == old(bufferMap) && captureStatusMap == old(captureStatusMap)
      ensures error == None ==>
        && bufferMap == map[request.handle := client] + old(bufferMap)
        && Forgets(old(captureStatusMap), captureStatusMap, client, request.handle)
      ensures Valid() && held == Kept(old(held), captureStatusMap)
    {
      if request.poweredDown {
        return BadDisplay;
      }
      if request.secureTransition {
        return Unsupported;
      }
      if !request.hasBuffer || !request.fdValid || !request.formatOk {
        return BadParameter;
      }
      match request.driver {
        case BadParameters => return BadParameter;
        case OtherError => return Unsupported;
        case Taken =>
      }
      Enter(client, request.handle);
      error := None;
    }

    method GetReadbackBufferFenceForClient(client: Client, driver: Fence) returns (fence: Fence, status: Status)
      requires Valid()
      modifies this`bufferMap, this`captureStatusMap, this`held
      ensures var c := old(Collect(View(), client, driver));
        View() == c.state && fence == c.fence && status == c.status
      ensures client == NoClient ==> fence == Null && status == UnknownError && View() == old(View())
      ensures client != NoClient && fence == Null ==>
        bufferMap == old(bufferMap) && (status == Pending || status == NotAvailable) &&
        captureStatusMap == Touch(old(captureStatusMap), client)
      ensures client != NoClient && fence != Null ==>
        client !in captureStatusMap && bufferMap.Keys <= old(bufferMap).Keys
      ensures Valid() && held == Kept(old(held), captureStatusMap)
    {
      if client == NoClient {
        return Null, UnknownError;
      }
      status := Signaled;
      var handle := 0;
      fence := driver;
      var response := At(client);
      if response.handle != 0 {
        handle := response.handle;
        if response.status != NotChecked {
          fence := response.fence;
        }
        status := response.status;
      } else if outputBuffer != NoOutput {
        if outputBuffer.handle in bufferMap && bufferMap[outputBuffer.handle] == client {
          handle := outputBuffer.handle;
          status := NotChecked;
        }
      } else {
        handle := FindBuffer(client);
        fence := Null;
      }
      if fence != Null {
        bufferMap := bufferMap - {handle};
        Erase(client);
      }
      if handle == 0 {
        status := NotAvailable;
      } else if fence == Null {
        status := Pending;
      }
    }

    /** The scan of cwb_buffer_map_, in handle order, for a buffer of the client. */
    method FindBuffer(client: Client) returns (handle: nat)
      ensures handle == FirstBuffer(bufferMap, bufferMap.Keys, client)
      ensures forall h :: h in bufferMap && bufferMap[h] == client ==> handle <= h
    {
      var keys := bufferMap.Keys;
      while keys != {}
        invariant keys <= bufferMap.Keys
        invariant FirstBuffer(bufferMap, bufferMap.Keys, client) == FirstBuffer(bufferMap, keys, client)
      {
        var id := Least(keys);
        if bufferMap[id] == client {
          return id;
        }
        keys := keys - {id};
      }
      handle := 0;
    }

    /** HandleFrameOutput's locked section; `client` names the frame handler to run next. */
    method HandleFrameOutput() returns (client: Client)
      requires Valid()
      modifies this`captureStatusMap
      ensures Valid() && View() == old(CwbCapture.HandleFrameOutput(View())) && client == old(FrameClient(View()))
      ensures outputBuffer != NoOutput && outputBuffer.handle in bufferMap ==>
        && client == bufferMap[outputBuffer.handle] && client in captureStatusMap
        && captureStatusMap[client].handle == outputBuffer.handle && captureStatusMap[client].client == client
        && captureStatusMap[client].status == NotChecked
      ensures outputBuffer == NoOutput || outputBuffer.handle !in bufferMap ==>
        captureStatusMap == old(captureStatusMap)
    {
      if outputBuffer != NoOutput && outputBuffer.handle in bufferMap {
        client := bufferMap[outputBuffer.handle];
        var response := At(client);
        response := response.(handle := outputBuffer.handle, client := client, status := NotChecked);
        captureStatusMap := captureStatusMap[client := response];
        return;
      }
      for i := 0 to 5
        invariant FindEntry(captureStatusMap, outputBuffer, 0) == FindEntry(captureStatusMap, outputBuffer, i)
      {
        if ClientAt(i) in captureStatusMap && Wanted(outputBuffer, captureStatusMap[ClientAt(i)]) {
          return captureStatusMap[ClientAt(i)].client;
        }
      }
      client := NoClient;
    }

    /** Fills the client's answer in. */
    method Record(client: Client, handle: nat, verdict: Status, fence: Fence)
      requires Valid()
      modifies this`captureStatusMap
      ensures Valid() && captureStatusMap == old(captureStatusMap)[client := Response(handle, client, verdict, fence)]
    {
      var response := At(client);
      response := response.(handle := handle, client := client, fence := fence, status := verdict);
      captureStatusMap := captureStatusMap[client := response];
    }

    method NotifyCwbDone(handle: nat, status: int, fence: Fence, handled: bool)
      requires Valid()
      modifies this`bufferMap, this`captureStatusMap, this`held
      ensures View() == old(CwbCapture.NotifyCwbDone(View(), handle, status, fence, handled))
      ensures handle !in old(bufferMap) ==> View() == old(View())
      ensures handle in old(bufferMap) ==>
        && bufferMap == old(bufferMap) - {handle}
        && var c := old(bufferMap)[handle];
           var verdict := if status == 0 then Signaled else if status == -62 then TimedOut else UnknownError;
           captureStatusMap == if c == External && handled then old(captureStatusMap) - {c}
                               else old(captureStatusMap)[c := Response(handle, c, verdict, fence)]
      ensures Valid() && held == Kept(old(held), captureStatusMap)
    {
      if handle !in bufferMap {
        return;
      }
      var client := bufferMap[handle];
      var verdict := if status == 0 then Signaled else if status == -ETIME then TimedOut else UnknownError;
      Record(client, handle, verdict, fence);
      bufferMap := bufferMap - {handle};
      if client == External && handled {
        Erase(client);
      }
    }

    /** HandleFrameCapture up to its wait; `wait` when the colour client's completion is not known yet. */
    method BeginFrameCapture() returns (wait: bool)
      requires Valid()
      modifies this`captureStatusMap, this`held
      ensures Valid() && View() == old(Step(View(), CaptureLook)) && held == old(held) + {Color}
      ensures wait <==> Color in old(captureStatusMap) && old(captureStatusMap)[Color].status == NotChecked
    {
      var response := At(Color);
      held := held + {Color};
      wait := response.status == NotChecked;
    }

    /** HandleFrameCapture after its wait, through the reference it got before: `dangling` when the answer has
        been taken out of the map since. */
    method EndFrameCapture() returns (result: int, ghost dangling: bool)
      requires Valid()
      modifies this`held
      ensures Valid() && dangling == (Color !in old(held)) && held == old(held) - {Color}
      ensures !dangling ==>
        && (result == 0 <==> captureStatusMap[Color].status == Signaled)
        && (result == -62 <==> captureStatusMap[Color].status == TimedOut)
        && (result == 0 || result == -62 || result == -1)
    {
      dangling := Color !in held;
      held := held - {Color};
      var status := if Color in captureStatusMap then captureStatusMap[Color].status else UnknownError;
      result := if status == TimedOut then -ETIME else if status != Signaled then -1 else 0;
    }

    /** HandleFrameDump up to its wait. */
    method BeginFrameDump() returns (wait: bool)
      requires Valid()
      modifies this`captureStatusMap, this`held
      ensures Valid() && View() == old(Step(View(), DumpLook)) && held == old(held) + {FrameDump}
      ensures wait <==> FrameDump in old(captureStatusMap) && old(captureStatusMap)[FrameDump].status == NotChecked
    {
      var response := At(FrameDump);
      held := held + {FrameDump};
      wait := response.status == NotChecked;
    }

    /** HandleFrameDump after its wait, unless that timed out. */
    method EndFrameDump() returns (status: Status, ghost dangling: bool)
      requires Valid()
      modifies this`captureStatusMap, this`held
      ensures Valid() && View() == old(Step(View(), DumpTake)) && held == old(held) - {FrameDump}
      ensures dangling == (FrameDump !in old(held))
      ensures !dangling ==> status == old(captureStatusMap[FrameDump].status)
    {
      dangling := FrameDump !in held;
      status := if FrameDump in captureStatusMap then captureStatusMap[FrameDump].status else UnknownError;
      Erase(FrameDump);
    }
  }
}
