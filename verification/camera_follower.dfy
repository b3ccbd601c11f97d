/**
 * `CameraFollower`: keeps a camera centred on a game object, either jumping
 * there or closing a fraction of the distance each frame. The followed
 * object's coordinates are read by the caller and passed in.
 */
module CameraFollower {
  import opened CameraMath
  import Cameras = Camera

  /** The camera position that centres the viewport on `(objectX, objectY)`. */
  function FollowTarget(objectX: real, objectY: real, viewportWidth: real, viewportHeight: real): (r: (real, real))
    ensures r.0 + viewportWidth / 2.0 == objectX && r.1 + viewportHeight / 2.0 == objectY
  {
    (objectX - viewportWidth / 2.0, objectY - viewportHeight / 2.0)
  }

  class CameraFollower {
    const camera: Cameras.Camera
    const followSpeed: real
    const smoothFollow: bool

    constructor (camera: Cameras.Camera, followSpeed: real, smoothFollow: bool)
      ensures this.camera == camera && this.followSpeed == followSpeed && this.smoothFollow == smoothFollow
    {
      this.camera := camera;
      this.followSpeed := followSpeed;
      this.smoothFollow := smoothFollow;
    }

    /**
     * `update(deltaTime)`: in smooth mode the camera moves by
     * `(target - position) * followSpeed * deltaTime`, so the distance left
     * is scaled by `1 - followSpeed * deltaTime`; in snap mode it jumps to
     * the target. No bounds are enforced here.
     */
    method Update(deltaTime: real, objectX: real, objectY: real)
      modifies camera
      ensures var (tx, ty) := FollowTarget(objectX, objectY, camera.viewportUnitsWidth, camera.viewportUnitsHeight);
        if smoothFollow then
          camera.x == Lerp(old(camera.x), tx, followSpeed * deltaTime)
          && camera.y == Lerp(old(camera.y), ty, followSpeed * deltaTime)
        else camera.x == tx && camera.y == ty
    {
      var targetX := objectX - camera.viewportUnitsWidth / 2.0;
      var targetY := objectY - camera.viewportUnitsHeight / 2.0;
      if smoothFollow {
        var dx := targetX - camera.x;
        var dy := targetY - camera.y;
        MulCommutesAssociates(dx, followSpeed, deltaTime);
        MulCommutesAssociates(dy, followSpeed, deltaTime);
        MulCommutesAssociates(dx, followSpeed * deltaTime, 1.0);
        MulCommutesAssociates(dy, followSpeed * deltaTime, 1.0);
        camera.Move(dx * followSpeed * deltaTime, dy * followSpeed * deltaTime);
      } else {
        camera.SetPosition(targetX, targetY);
      }
    }
  }

  /**
   * One smooth step with `followSpeed * deltaTime` in [0, 1] ends between the
   * old position and the target; at 1 it reaches the target, at 0 it stays.
   */
  lemma SmoothStepBetween(position: real, target: real, followSpeed: real, deltaTime: real)
    requires 0.0 <= followSpeed * deltaTime <= 1.0
    ensures position <= target ==> position <= Lerp(position, target, followSpeed * deltaTime) <= target
    ensures target <= position ==> target <= Lerp(position, target, followSpeed * deltaTime) <= position
    ensures followSpeed * deltaTime == 1.0 ==> Lerp(position, target, followSpeed * deltaTime) == target
    ensures deltaTime == 0.0 ==> Lerp(position, target, followSpeed * deltaTime) == position
  {
    LerpBetween(position, target, followSpeed * deltaTime);
  }
}
