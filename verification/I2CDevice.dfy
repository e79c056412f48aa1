/**
 The registers of mkI2C updated in place by its rules and methods.
 */
module I2CDevice {
  import opened I2CBus
  import opened I2CMaster

  class Controller {
    var fRequest: seq<Request>
    var fResponse: seq<seq<bool>>
    var rSCL: bool
    var rSDA: bool
    var rOutEn: bool
    var rPlayIndex: nat
    var running: bool
    var request: Request
    var vrReadData: seq<bool>
    ghost var bus: seq<Wire>
    ghost var submitted: seq<Request>
    ghost var served: seq<Request>
    ghost var answers: seq<seq<bool>>

    ghost function State(): Master
      reads this
    {
      Master(fRequest, fResponse, rSCL, rSDA, rOutEn, rPlayIndex, running, request, vrReadData,
             bus, submitted, served, answers)
    }

    /** The request registers and the shift register come up with any contents. */
    constructor (anyRequest: Request, anyData: seq<bool>)
      requires Sized(anyRequest) && |anyData| == 8
      ensures Reset(State())
    {
      fRequest, fResponse, rSCL, rSDA, rOutEn := [], [], true, true, true;
      rPlayIndex, running, request, vrReadData := 0, false, anyRequest, anyData;
      bus, submitted, served, answers := [Wire(true, true)], [], [], [];
    }

    method Request(write: bool, slaveaddr: seq<bool>, address: seq<bool>, datain: seq<bool>) returns (taken: bool)
      requires Ready(State()) && Sized(I2CMaster.Request(write, slaveaddr, address, datain))
      modifies this
      ensures State() == Step(old(State()), Submit(I2CMaster.Request(write, slaveaddr, address, datain)))
      ensures taken <==> |old(fRequest)| < 16
      ensures taken ==> fRequest == old(fRequest) + [I2CMaster.Request(write, slaveaddr, address, datain)]
    {
      taken := |fRequest| < QUEUE_DEPTH;
      if taken {
        var r := I2CMaster.Request(write, slaveaddr, address, datain);
        fRequest := fRequest + [r];
        submitted := submitted + [r];
      }
    }

    method Response() returns (taken: bool, data: seq<bool>)
      requires Ready(State())
      modifies this
      ensures State() == Step(old(State()), TakeResponse)
      ensures taken <==> old(fResponse) != []
      ensures taken ==> old(fResponse) == [data] + fResponse
    {
      taken, data := fResponse != [], [];
      if taken {
        data := fResponse[0];
        fResponse := fResponse[1..];
      }
    }

    method Start() returns (fired: bool)
      requires Ready(State())
      modifies this
      ensures State() == Step(old(State()), StartRule)
      ensures fired <==> !old(running) && old(fRequest) != []
    {
      fired := !running && fRequest != [];
      if fired {
        request := fRequest[0];
        fRequest := fRequest[1..];
        running := true;
        rPlayIndex := (if request.write then 87 else 117) - 1;
        served := served + [request];
      }
    }

    // Each rule below waits for a tick; `slave` is what the devices on the bus show on the data line
    // afterwards while the master does not drive it.

    method RunningWrite(ghost slave: bool)
      requires Ready(State()) && running && request.write && rPlayIndex > 0
      modifies this
      ensures State() == Play(old(State()), slave)
    {
      Drive(slave);
      rPlayIndex := rPlayIndex - 1;
    }

    /** `tSDA` is the level of the data line as the tick comes. */
    method RunningRead(tSDA: bool, ghost slave: bool)
      requires Ready(State()) && running && !request.write && rPlayIndex > 0
      requires tSDA == Line(State()).sda
      modifies this
      ensures State() == Play(old(State()), slave)
    {
      if Sample(request, rPlayIndex) {
        vrReadData := vrReadData[1..] + [tSDA];
      }
      Drive(slave);
      rPlayIndex := rPlayIndex - 1;
    }

    /** The 10-bit counter wraps. */
    method DoneWrite(ghost slave: bool)
      requires Ready(State()) && running && request.write && rPlayIndex == 0
      modifies this
      ensures State() == Play(old(State()), slave)
      ensures rPlayIndex == 1023 && !running && fResponse == old(fResponse)
    {
      Drive(slave);
      rPlayIndex := 1023;
      running := false;
    }

    method DoneRead(ghost slave: bool)
      requires Ready(State()) && running && !request.write && rPlayIndex == 0
      requires |fResponse| < QUEUE_DEPTH
      modifies this
      ensures State() == Play(old(State()), slave)
      ensures fResponse == old(fResponse) + [old(vrReadData)] && !running
    {
      Drive(slave);
      fResponse := fResponse + [vrReadData];
      answers := answers + [vrReadData];
      running := false;
    }

    method Drive(ghost slave: bool)
      requires Sized(request) && rPlayIndex < Length(request)
      modifies this`rOutEn, this`rSDA, this`rSCL, this`bus
      ensures rSCL == Clock(request, rPlayIndex) && rSDA == Data(request, rPlayIndex)
      ensures rOutEn == OutEn(request, rPlayIndex)
      ensures bus == old(bus) + [Wire(rSCL, if rOutEn then rSDA else slave)]
    {
      rOutEn := OutEn(request, rPlayIndex);
      rSDA := Data(request, rPlayIndex);
      rSCL := Clock(request, rPlayIndex);
      bus := bus + [Wire(rSCL, if rOutEn then rSDA else slave)];
    }

    /** One tick: whichever of the rules can fire does. */
    method Tick(tSDA: bool, ghost slave: bool)
      requires Ready(State()) && tSDA == Line(State()).sda
      modifies this
      ensures State() == Step(old(State()), Event.Tick(slave))
    {
      if running && request.write && rPlayIndex > 0 {
        RunningWrite(slave);
      } else if running && !request.write && rPlayIndex > 0 {
        RunningRead(tSDA, slave);
      } else if running && request.write {
        DoneWrite(slave);
      } else if running && |fResponse| < QUEUE_DEPTH {
        DoneRead(slave);
      } else {
        bus := bus + [Wire(rSCL, if rOutEn then rSDA else slave)];
      }
    }
  }
}
