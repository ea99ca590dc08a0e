/**
 The startup/shutdown lifecycle: the process-wide model store and the two
 halves of the application's lifespan handler around it.
 */
module Lifecycle {
  import opened Api
  import Endpoints

  /** How the startup half of the lifespan ended: the model is in the store,
      or loading raised and the exception was re-raised, so the process fails
      to start instead of serving without a model. */
  datatype StartupResult = Started | StartupFailed

  /** The application and its model store, `ml_models`. */
  class App {
    var mlModels: ModelStore

    /** At import the store is an empty dictionary. */
    constructor ()
      ensures mlModels == map[]
      ensures !Ready(mlModels)
    {
      mlModels := map[];
    }

    /** Startup: construct the model (`load` is what constructing it gives:
        the model, or an exception) and store it under `ENCODER_KEY`. A failed
        construction never reaches the assignment, so the store is untouched
        and the exception propagates. */
    method Startup(load: Encoded<Encoder>) returns (s: StartupResult)
      modifies this
      ensures load.Value? ==> s == Started && mlModels == old(mlModels)[ENCODER_KEY := load.v]
      ensures load.Value? ==> Ready(mlModels)
      ensures load.Raised? ==> s == StartupFailed && mlModels == old(mlModels)
      ensures Ready(mlModels) <==> load.Value? || Ready(old(mlModels))
    {
      if load.Raised? {
        return StartupFailed;
      }
      mlModels := mlModels[ENCODER_KEY := load.v];
      s := Started;
    }

    /** Shutdown: clear the store. Whatever it held, it is empty afterwards, so
        a second shutdown changes nothing. */
    method Shutdown()
      modifies this
      ensures mlModels == map[]
      ensures !Ready(mlModels)
    {
      mlModels := map[];
    }
  }

  /** One process lifetime: a fresh store, a health probe before the lifespan
      starts, the startup half of the lifespan, then, only when startup
      succeeded, a probe while the application serves, the shutdown half and a
      probe after it. When startup fails the exception escapes the lifespan
      before it yields, so the application never serves: there is no serving
      probe and no shutdown (both are `None`). */
  method RunLifespan(load: Encoded<Encoder>)
    returns (beforeStartup: Outcome<HealthResponse>, started: StartupResult,
             serving: Option<Outcome<HealthResponse>>,
             afterShutdown: Option<Outcome<HealthResponse>>)
    ensures beforeStartup == Failed(Unavailable)
    ensures started == Started <==> load.Value?
    ensures serving.Some? <==> load.Value?
    ensures afterShutdown.Some? <==> load.Value?
    ensures serving.Some? ==>
      serving.value == Ok(HealthResponse(HEALTH_STATUS, MODEL_NAME, EMBEDDING_DIMENSION, true))
    ensures afterShutdown.Some? ==> afterShutdown.value == Failed(Unavailable)
  {
    var app := new App();
    beforeStartup := Endpoints.HealthCheck(app.mlModels);
    started := app.Startup(load);
    if started == StartupFailed {
      return beforeStartup, started, None, None;
    }
    var health := Endpoints.HealthCheck(app.mlModels);
    serving := Some(health);
    app.Shutdown();
    health := Endpoints.HealthCheck(app.mlModels);
    afterShutdown := Some(health);
  }
}
